/** The process table of proc.c under ptable.lock: any number of CPUs and processes running
    scheduler, fork, exit, wait, yield, sleep, wakeup and kill.

    A step is one section between two points where another CPU may act: taking or giving back
    the lock, the body of a locked section, or one of fork's writes made without the lock. The
    lock passes from the scheduler to the process and back across swtch. */
module Proc {
  import opened Collections

  datatype RunState = UNUSED | EMBRYO | SLEEPING | RUNNABLE | RUNNING | ZOMBIE

  datatype Chan = NoChan | OfProc(p: nat) | Other(k: nat)

  /** Where the process is in code that does not hold the lock. */
  datatype Pos = Elsewhere | Forking(np: nat) | Forked(np: nat)

  /** What the process has begun under the lock, or will go on with when it is switched to. */
  datatype Act =
    | Free            // the lock is not held
    | ForkRet         // not run yet
    | Yield0 | YieldBack
    | Sleep0(ch: Chan) | SleepBack
    | Exit0 | Dead
    | Scan            // wait: at the top of its loop
    | WaitBack        // wait: inside sleep

  /** `on` is the CPU that has switched to the process, `maker` who has it as its embryo; -1 if none. */
  datatype Proc = Proc(state: RunState, pid: nat, parent: int, chan: Chan, killed: bool,
                       pos: Pos, act: Act, on: int, maker: int)

  datatype Phase = Idle | Picking | Running | Back

  datatype Cpu = Cpu(phase: Phase, proc: int)

  /** `lock`: the CPU that holds ptable.lock, or -1. `exited`: the pids that have exited.
      `reaped` and `takers`: the pids that wait has returned, and the slot of the process to
      which it returned each. */
  datatype State = State(procs: seq<Proc>, cpus: seq<Cpu>, lock: int, nextpid: nat,
                         exited: set<nat>, reaped: seq<nat>, takers: seq<nat>)

  const INIT: nat := 0

  predicate Alive(x: Proc) { x.state in {SLEEPING, RUNNABLE, RUNNING} }

  // ---- What the table-scanning loops compute

  /** wakeup1. */
  function Awaken(procs: seq<Proc>, ch: Chan): (r: seq<Proc>)
    ensures |r| == |procs|
    ensures forall q :: 0 <= q < |procs| ==> r[q] == Woken(procs[q], ch)
  {
    if procs == [] then [] else Awaken(procs[..|procs| - 1], ch) + [Woken(procs[|procs| - 1], ch)]
  }

  function Woken(x: Proc, ch: Chan): Proc {
    if x.state == SLEEPING && x.chan == ch then x.(state := RUNNABLE) else x
  }

  predicate LeavesZombie(procs: seq<Proc>, p: nat) {
    exists q :: 0 <= q < |procs| && procs[q].parent == p && procs[q].state == ZOMBIE
  }

  /** What the exit of `p`, a child of `up`, makes of slot `i`: sleepers on `up` are woken, and
      those on init if a zombie is left to it (`z`); children of `p` become init's. */
  function ExitSlot(x: Proc, i: nat, p: nat, up: int, z: bool): Proc {
    var woken := x.state == SLEEPING && ((up >= 0 && x.chan == OfProc(up)) || (z && x.chan == OfProc(INIT)));
    x.(state := if i == p then ZOMBIE else if woken then RUNNABLE else x.state,
       act := if i == p then Dead else x.act,
       parent := if x.parent == p then INIT else x.parent)
  }

  function ExitSlots(procs: seq<Proc>, p: nat, up: int, z: bool): (r: seq<Proc>)
    ensures |r| == |procs|
    ensures forall q :: 0 <= q < |procs| ==> r[q] == ExitSlot(procs[q], q, p, up, z)
  {
    if procs == [] then []
    else ExitSlots(procs[..|procs| - 1], p, up, z) + [ExitSlot(procs[|procs| - 1], |procs| - 1, p, up, z)]
  }

  /** The table after exit's locked section. */
  function ExitTable(procs: seq<Proc>, p: nat): (r: seq<Proc>)
    requires p < |procs|
    ensures |r| == |procs|
    ensures forall q :: 0 <= q < |procs| ==> r[q] == ExitSlot(procs[q], q, p, procs[p].parent, LeavesZombie(procs, p))
  {
    ExitSlots(procs, p, procs[p].parent, LeavesZombie(procs, p))
  }

  predicate ZombieChild(procs: seq<Proc>, p: nat, q: nat) {
    q < |procs| && procs[q].parent == p && procs[q].state == ZOMBIE
  }

  ghost predicate HasChild(procs: seq<Proc>, p: nat) {
    exists q :: 0 <= q < |procs| && procs[q].parent == p
  }

  // ---- The steps

  function Put(s: State, p: nat, x: Proc): State
    requires p < |s.procs|
  {
    s.(procs := s.procs[p := x])
  }

  predicate IsRunning(s: State, c: nat, p: nat) {
    c < |s.cpus| && p < |s.procs| && s.cpus[c] == Cpu(Running, p)
  }

  predicate SchedAcquire(s: State, t: State, c: nat) {
    && c < |s.cpus| && s.cpus[c].phase == Idle && s.lock == -1
    && t == s.(lock := c, cpus := s.cpus[c := Cpu(Picking, s.cpus[c].proc)])
  }

  predicate SchedRelease(s: State, t: State, c: nat) {
    && c < |s.cpus| && s.cpus[c].phase == Picking
    && t == s.(lock := -1, cpus := s.cpus[c := Cpu(Idle, s.cpus[c].proc)])
  }

  predicate SchedPick(s: State, t: State, c: nat, p: nat) {
    && c < |s.cpus| && p < |s.procs| && s.cpus[c].phase == Picking && s.procs[p].state == RUNNABLE
    && t == s.(cpus := s.cpus[c := Cpu(Running, p)], procs := s.procs[p := s.procs[p].(state := RUNNING, on := c)])
  }

  predicate SchedBack(s: State, t: State, c: nat) {
    && c < |s.cpus| && s.cpus[c].phase == Back && 0 <= s.cpus[c].proc < |s.procs|
    && t == s.(cpus := s.cpus[c := Cpu(Picking, -1)],
               procs := s.procs[s.cpus[c].proc := s.procs[s.cpus[c].proc].(on := -1)])
  }

  /** Taking the lock for yield, sleep, exit or wait. */
  predicate Enter(s: State, t: State, c: nat, p: nat, act: Act) {
    && IsRunning(s, c, p) && s.lock == -1 && s.procs[p].act == Free
    && (act == Yield0 || (s.procs[p].pos == Elsewhere && (act.Sleep0? || act == Scan || (act == Exit0 && p != INIT))))
    && t == Put(s, p, s.procs[p].(act := act)).(lock := c)
  }

  /** Giving the lock back: forkret, or yield and sleep after they were switched to again. */
  predicate Leave(s: State, t: State, c: nat, p: nat) {
    && IsRunning(s, c, p) && s.procs[p].act in {ForkRet, YieldBack, SleepBack}
    && var x := s.procs[p];
       t == Put(s, p, x.(act := Free, chan := if x.act == SleepBack then NoChan else x.chan)).(lock := -1)
  }

  predicate Yield(s: State, t: State, c: nat, p: nat) {
    && IsRunning(s, c, p) && s.procs[p].act == Yield0
    && t == Put(s, p, s.procs[p].(state := RUNNABLE, act := YieldBack)).(cpus := s.cpus[c := Cpu(Back, p)])
  }

  predicate Sleep(s: State, t: State, c: nat, p: nat) {
    && IsRunning(s, c, p) && s.procs[p].act.Sleep0?
    && t == Put(s, p, s.procs[p].(state := SLEEPING, chan := s.procs[p].act.ch, act := SleepBack))
            .(cpus := s.cpus[c := Cpu(Back, p)])
  }

  predicate Exit(s: State, t: State, c: nat, p: nat) {
    && IsRunning(s, c, p) && s.procs[p].act == Exit0
    && t == s.(procs := ExitTable(s.procs, p), cpus := s.cpus[c := Cpu(Back, p)], exited := s.exited + {s.procs[p].pid})
  }

  predicate WaitReaps(s: State, t: State, c: nat, p: nat, q: nat) {
    && IsRunning(s, c, p) && s.procs[p].act == Scan && ZombieChild(s.procs, p, q)
    && (forall r :: 0 <= r < q ==> !ZombieChild(s.procs, p, r))
    && t == s.(procs := s.procs[q := s.procs[q].(state := UNUSED, pid := 0, parent := -1, killed := false)]
                               [p := s.procs[p].(act := Free)],
               lock := -1, reaped := s.reaped + [s.procs[q].pid], takers := s.takers + [p])
  }

  ghost predicate WaitFails(s: State, t: State, c: nat, p: nat) {
    && IsRunning(s, c, p) && s.procs[p].act == Scan && (!HasChild(s.procs, p) || s.procs[p].killed)
    && (forall q :: 0 <= q < |s.procs| ==> !ZombieChild(s.procs, p, q))
    && t == Put(s, p, s.procs[p].(act := Free)).(lock := -1)
  }

  ghost predicate WaitSleeps(s: State, t: State, c: nat, p: nat) {
    && IsRunning(s, c, p) && s.procs[p].act == Scan && HasChild(s.procs, p) && !s.procs[p].killed
    && (forall q :: 0 <= q < |s.procs| ==> !ZombieChild(s.procs, p, q))
    && t == Put(s, p, s.procs[p].(state := SLEEPING, chan := OfProc(p), act := WaitBack))
            .(cpus := s.cpus[c := Cpu(Back, p)])
  }

  predicate WaitAgain(s: State, t: State, c: nat, p: nat) {
    && IsRunning(s, c, p) && s.procs[p].act == WaitBack
    && t == Put(s, p, s.procs[p].(act := Scan, chan := NoChan))
  }

  /** allocproc's locked section; no slot, no change. */
  predicate ForkAlloc(s: State, t: State, c: nat, p: nat, np: nat) {
    && IsRunning(s, c, p) && s.lock == -1 && s.procs[p].act == Free && s.procs[p].pos == Elsewhere
    && np < |s.procs| && s.procs[np].state == UNUSED
    && var x := s.procs[np].(state := EMBRYO, pid := s.nextpid, pos := Elsewhere, act := ForkRet, maker := p);
       t == s.(procs := s.procs[np := x][p := s.procs[p].(pos := Forking(np))], nextpid := s.nextpid + 1)
  }

  /** kalloc or copyuvm failed: the slot is given back without the lock. */
  predicate ForkFails(s: State, t: State, c: nat, p: nat) {
    && IsRunning(s, c, p) && s.procs[p].act == Free && s.procs[p].pos.Forking? && s.procs[p].pos.np < |s.procs|
    && t == s.(procs := s.procs[s.procs[p].pos.np := s.procs[s.procs[p].pos.np].(state := UNUSED)]
                               [p := s.procs[p].(pos := Elsewhere)])
  }

  /** The child's parent is set without the lock. */
  predicate ForkParent(s: State, t: State, c: nat, p: nat) {
    && IsRunning(s, c, p) && s.procs[p].act == Free && s.procs[p].pos.Forking? && s.procs[p].pos.np < |s.procs|
    && var np := s.procs[p].pos.np;
       t == s.(procs := s.procs[np := s.procs[np].(parent := p)][p := s.procs[p].(pos := Forked(np))])
  }

  predicate ForkPublish(s: State, t: State, c: nat, p: nat) {
    && IsRunning(s, c, p) && s.lock == -1 && s.procs[p].act == Free
    && s.procs[p].pos.Forked? && s.procs[p].pos.np < |s.procs|
    && var np := s.procs[p].pos.np;
       t == s.(procs := s.procs[np := s.procs[np].(state := RUNNABLE)][p := s.procs[p].(pos := Elsewhere)])
  }

  /** wakeup, from a process or an interrupt handler. */
  predicate Wakeup(s: State, t: State, ch: Chan) {
    s.lock == -1 && t == s.(procs := Awaken(s.procs, ch))
  }

  /** kill of the process in slot `q`. */
  predicate Kill(s: State, t: State, q: nat) {
    && s.lock == -1 && q < |s.procs|
    && var x := s.procs[q];
       t == Put(s, q, x.(killed := true, state := if x.state == SLEEPING then RUNNABLE else x.state))
  }

  ghost predicate SchedStep(s: State, t: State, c: nat) {
    SchedAcquire(s, t, c) || SchedRelease(s, t, c) || SchedBack(s, t, c) || (exists p :: SchedPick(s, t, c, p))
  }

  ghost predicate WaitStep(s: State, t: State, c: nat, p: nat) {
    WaitFails(s, t, c, p) || WaitSleeps(s, t, c, p) || WaitAgain(s, t, c, p) || (exists q :: WaitReaps(s, t, c, p, q))
  }

  ghost predicate ForkStep(s: State, t: State, c: nat, p: nat) {
    || ForkFails(s, t, c, p) || ForkParent(s, t, c, p) || ForkPublish(s, t, c, p)
    || (exists np :: ForkAlloc(s, t, c, p, np))
  }

  ghost predicate ProcStep(s: State, t: State, c: nat, p: nat) {
    || Leave(s, t, c, p) || Yield(s, t, c, p) || Sleep(s, t, c, p) || Exit(s, t, c, p)
    || (exists act :: Enter(s, t, c, p, act)) || WaitStep(s, t, c, p) || ForkStep(s, t, c, p)
  }

  ghost predicate Next(s: State, t: State) {
    || (exists c :: SchedStep(s, t, c)) || (exists c, p :: ProcStep(s, t, c, p))
    || (exists ch :: Wakeup(s, t, ch)) || (exists q :: Kill(s, t, q))
  }

  // ---- The invariant

  predicate Holding(s: State, c: nat)
    requires c < |s.cpus|
  {
    match s.cpus[c].phase
    case Idle => false
    case Picking => true
    case Back => true
    case Running => 0 <= s.cpus[c].proc < |s.procs| && s.procs[s.cpus[c].proc].act != Free
  }

  predicate CpuOk(s: State, c: nat)
    requires c < |s.cpus|
  {
    var u := s.cpus[c];
    && (u.phase in {Idle, Picking} ==> u.proc == -1)
    && (u.phase in {Running, Back} ==> 0 <= u.proc < |s.procs| && s.procs[u.proc].on == c)
    && (s.lock == c <==> Holding(s, c))
  }

  /** A process is RUNNING exactly while some CPU has switched to it and not yet been switched back. */
  predicate OnOk(s: State, p: nat)
    requires p < |s.procs|
  {
    var x := s.procs[p];
    && (x.on == -1 || (0 <= x.on < |s.cpus| && s.cpus[x.on].proc == p && s.cpus[x.on].phase in {Running, Back}))
    && (x.state == RUNNING <==> x.on >= 0 && s.cpus[x.on].phase == Running)
  }

  /** Each state goes with where the process is in its code. */
  predicate ActOk(s: State, p: nat)
    requires p < |s.procs|
  {
    var x := s.procs[p];
    match x.state
    case UNUSED => x.parent == -1 && x.pos == Elsewhere
    case EMBRYO => x.act == ForkRet && x.pos == Elsewhere
    case RUNNABLE => x.act in {ForkRet, YieldBack, SleepBack, WaitBack}
    case SLEEPING => x.act in {SleepBack, WaitBack} && (x.act == WaitBack ==> x.chan == OfProc(p))
    case RUNNING => x.act != Dead && (x.act == Exit0 ==> p != INIT)
    case ZOMBIE => x.act == Dead
  }

  /** Only one who is neither sleeping nor exiting has an embryo. */
  predicate PosOk(s: State, p: nat)
    requires p < |s.procs|
  {
    var x := s.procs[p];
    x.pos != Elsewhere ==>
      && x.act in {Free, Yield0, YieldBack} && Alive(x)
      && x.pos.np < |s.procs| && s.procs[x.pos.np].state == EMBRYO && s.procs[x.pos.np].maker == p
  }

  predicate MadeBy(s: State, q: nat, m: int)
    requires q < |s.procs|
  {
    && 0 <= m < |s.procs|
    && (|| (s.procs[m].pos == Forking(q) && s.procs[q].parent == -1)
        || (s.procs[m].pos == Forked(q) && s.procs[q].parent == m))
  }

  predicate ParentOk(s: State, q: nat)
    requires q < |s.procs|
  {
    var x := s.procs[q];
    && (x.state == EMBRYO ==> MadeBy(s, q, x.maker))
    && (Alive(x) || x.state == ZOMBIE ==> (x.parent == -1 <==> q == INIT))
    && (q == INIT ==> Alive(x))
    && (x.parent != -1 ==> 0 <= x.parent < |s.procs| && x.parent != q && Alive(s.procs[x.parent]))
    && (x.state == ZOMBIE && x.parent != -1 ==> !InWait(s, x.parent))
  }

  /** Asleep in wait. */
  predicate InWait(s: State, p: int) {
    0 <= p < |s.procs| && s.procs[p].state == SLEEPING && s.procs[p].act == WaitBack
  }

  ghost predicate KidOk(s: State, p: nat) { InWait(s, p) ==> HasChild(s.procs, p) }

  ghost predicate ProcOk(s: State, p: nat)
    requires p < |s.procs|
  {
    OnOk(s, p) && ActOk(s, p) && PosOk(s, p) && ParentOk(s, p) && KidOk(s, p)
  }

  ghost predicate Inv(s: State) {
    && |s.procs| > 0 && -1 <= s.lock < |s.cpus|
    && (forall c :: 0 <= c < |s.cpus| ==> CpuOk(s, c))
    && (forall p :: 0 <= p < |s.procs| ==> ProcOk(s, p))
  }

  lemma KidStays(s: State, t: State, p: nat)
    requires |t.procs| == |s.procs| && KidOk(s, p) && (InWait(t, p) ==> InWait(s, p))
    requires forall q :: 0 <= q < |s.procs| && s.procs[q].parent == p ==> t.procs[q].parent == p
    ensures KidOk(t, p)
  {
    if InWait(t, p) {
      var q :| 0 <= q < |s.procs| && s.procs[q].parent == p;
      assert t.procs[q].parent == p;
    }
  }

  /** No other CPU is on its way back from a process while this one has the lock or nobody has. */
  lemma OffCpu(s: State, c: nat, p: nat)
    requires Inv(s) && c < |s.cpus| && p < |s.procs| && s.procs[p].state != RUNNING
    requires s.lock == -1 || (s.lock == c && s.cpus[c].phase != Back)
    ensures s.procs[p].on == -1
  {
    assert ProcOk(s, p);
    assert 0 <= s.procs[p].on < |s.cpus| ==> CpuOk(s, s.procs[p].on);
  }

  /** The lock steps of the scheduler. */
  lemma SchedLockKeeps(s: State, t: State, c: nat)
    requires Inv(s) && (SchedAcquire(s, t, c) || SchedRelease(s, t, c))
    ensures Inv(t)
  {
    assert CpuOk(s, c);
    forall d | 0 <= d < |t.cpus| ensures CpuOk(t, d) { assert CpuOk(s, d); }
    forall q | 0 <= q < |t.procs| ensures ProcOk(t, q) { assert ProcOk(s, q); KidStays(s, t, q); }
  }

  lemma SchedPickKeeps(s: State, t: State, c: nat, p: nat)
    requires Inv(s) && SchedPick(s, t, c, p)
    ensures Inv(t)
  {
    assert CpuOk(s, c) && ProcOk(s, p);
    OffCpu(s, c, p);
    forall d | 0 <= d < |t.cpus| ensures CpuOk(t, d) { assert CpuOk(s, d); }
    forall q | 0 <= q < |t.procs| ensures ProcOk(t, q) { assert ProcOk(s, q); KidStays(s, t, q); }
  }

  lemma SchedBackKeeps(s: State, t: State, c: nat)
    requires Inv(s) && SchedBack(s, t, c)
    ensures Inv(t)
  {
    assert CpuOk(s, c) && ProcOk(s, s.cpus[c].proc);
    forall d | 0 <= d < |t.cpus| ensures CpuOk(t, d) { assert CpuOk(s, d); }
    forall q | 0 <= q < |t.procs| ensures ProcOk(t, q) { assert ProcOk(s, q); KidStays(s, t, q); }
  }

  lemma EnterKeeps(s: State, t: State, c: nat, p: nat, act: Act)
    requires Inv(s) && Enter(s, t, c, p, act)
    ensures Inv(t)
  {
    assert CpuOk(s, c) && ProcOk(s, p);
    forall d | 0 <= d < |t.cpus| ensures CpuOk(t, d) { assert CpuOk(s, d); }
    forall q | 0 <= q < |t.procs| ensures ProcOk(t, q) { assert ProcOk(s, q); KidStays(s, t, q); }
  }

  lemma LeaveKeeps(s: State, t: State, c: nat, p: nat)
    requires Inv(s) && Leave(s, t, c, p)
    ensures Inv(t)
  {
    assert CpuOk(s, c) && ProcOk(s, p);
    forall d | 0 <= d < |t.cpus| ensures CpuOk(t, d) { assert CpuOk(s, d); }
    forall q | 0 <= q < |t.procs| ensures ProcOk(t, q) { assert ProcOk(s, q); KidStays(s, t, q); }
  }

  lemma YieldKeeps(s: State, t: State, c: nat, p: nat)
    requires Inv(s) && Yield(s, t, c, p)
    ensures Inv(t)
  {
    assert CpuOk(s, c) && ProcOk(s, p);
    forall d | 0 <= d < |t.cpus| ensures CpuOk(t, d) { assert CpuOk(s, d); }
    forall q | 0 <= q < |t.procs| ensures ProcOk(t, q) { assert ProcOk(s, q); KidStays(s, t, q); }
  }

  lemma SleepKeeps(s: State, t: State, c: nat, p: nat)
    requires Inv(s) && Sleep(s, t, c, p)
    ensures Inv(t)
  {
    assert CpuOk(s, c) && ProcOk(s, p);
    forall d | 0 <= d < |t.cpus| ensures CpuOk(t, d) { assert CpuOk(s, d); }
    forall q | 0 <= q < |t.procs| ensures ProcOk(t, q) { assert ProcOk(s, q); KidStays(s, t, q); }
  }

  lemma WaitFailsKeeps(s: State, t: State, c: nat, p: nat)
    requires Inv(s) && (WaitFails(s, t, c, p) || WaitAgain(s, t, c, p))
    ensures Inv(t)
  {
    assert CpuOk(s, c) && ProcOk(s, p);
    forall d | 0 <= d < |t.cpus| ensures CpuOk(t, d) { assert CpuOk(s, d); }
    forall q | 0 <= q < |t.procs| ensures ProcOk(t, q) { assert ProcOk(s, q); KidStays(s, t, q); }
  }

  lemma WaitSleepsKeeps(s: State, t: State, c: nat, p: nat)
    requires Inv(s) && WaitSleeps(s, t, c, p)
    ensures Inv(t)
  {
    assert CpuOk(s, c) && ProcOk(s, p);
    forall d | 0 <= d < |t.cpus| ensures CpuOk(t, d) { assert CpuOk(s, d); }
    forall q | 0 <= q < |t.procs| ensures ProcOk(t, q) {
      assert ProcOk(s, q) && !ZombieChild(s.procs, p, q);
      if q == p {
        var r :| 0 <= r < |s.procs| && s.procs[r].parent == p;
        assert t.procs[r].parent == p;
      } else {
        KidStays(s, t, q);
      }
    }
  }

  lemma WaitReapsKeeps(s: State, t: State, c: nat, p: nat, z: nat)
    requires Inv(s) && WaitReaps(s, t, c, p, z)
    ensures Inv(t)
  {
    assert CpuOk(s, c) && ProcOk(s, p) && ProcOk(s, z);
    OffCpu(s, c, z);
    forall d | 0 <= d < |t.cpus| ensures CpuOk(t, d) { assert CpuOk(s, d); }
    forall q | 0 <= q < |t.procs| ensures ProcOk(t, q) {
      assert ProcOk(s, q);
      if !InWait(t, q) { assert KidOk(t, q); } else { KidStays(s, t, q); }
    }
  }

  lemma ForkAllocKeeps(s: State, t: State, c: nat, p: nat, np: nat)
    requires Inv(s) && ForkAlloc(s, t, c, p, np)
    ensures Inv(t)
  {
    assert CpuOk(s, c) && ProcOk(s, p);
    assert ProcOk(s, np);
    OffCpu(s, c, np);
    forall d | 0 <= d < |t.cpus| ensures CpuOk(t, d) { assert CpuOk(s, d); }
    forall q | 0 <= q < |t.procs| ensures ProcOk(t, q) { assert ProcOk(s, q); KidStays(s, t, q); }
  }

  lemma ForkFailsKeeps(s: State, t: State, c: nat, p: nat)
    requires Inv(s) && ForkFails(s, t, c, p)
    ensures Inv(t)
  {
    assert CpuOk(s, c) && ProcOk(s, p);
    assert ProcOk(s, s.procs[p].pos.np);
    forall d | 0 <= d < |t.cpus| ensures CpuOk(t, d) { assert CpuOk(s, d); }
    forall q | 0 <= q < |t.procs| ensures ProcOk(t, q) { assert ProcOk(s, q); KidStays(s, t, q); }
  }

  lemma ForkParentKeeps(s: State, t: State, c: nat, p: nat)
    requires Inv(s) && ForkParent(s, t, c, p)
    ensures Inv(t)
  {
    assert CpuOk(s, c) && ProcOk(s, p);
    assert ProcOk(s, s.procs[p].pos.np);
    forall d | 0 <= d < |t.cpus| ensures CpuOk(t, d) { assert CpuOk(s, d); }
    forall q | 0 <= q < |t.procs| ensures ProcOk(t, q) { assert ProcOk(s, q); KidStays(s, t, q); }
  }

  lemma ForkPublishKeeps(s: State, t: State, c: nat, p: nat)
    requires Inv(s) && ForkPublish(s, t, c, p)
    ensures Inv(t)
  {
    assert CpuOk(s, c) && ProcOk(s, p);
    assert ProcOk(s, s.procs[p].pos.np);
    forall d | 0 <= d < |t.cpus| ensures CpuOk(t, d) { assert CpuOk(s, d); }
    forall q | 0 <= q < |t.procs| ensures ProcOk(t, q) { assert ProcOk(s, q); KidStays(s, t, q); }
  }

  lemma WakeupKeeps(s: State, t: State, ch: Chan)
    requires Inv(s) && Wakeup(s, t, ch)
    ensures Inv(t)
  {
    forall d | 0 <= d < |t.cpus| ensures CpuOk(t, d) { assert CpuOk(s, d); }
    forall q | 0 <= q < |t.procs| ensures ProcOk(t, q) { assert ProcOk(s, q); KidStays(s, t, q); }
  }

  lemma KillKeeps(s: State, t: State, p: nat)
    requires Inv(s) && Kill(s, t, p)
    ensures Inv(t)
  {
    forall d | 0 <= d < |t.cpus| ensures CpuOk(t, d) { assert CpuOk(s, d); }
    forall q | 0 <= q < |t.procs| ensures ProcOk(t, q) { assert ProcOk(s, q); KidStays(s, t, q); }
  }

  lemma RunsNow(s: State, c: nat, p: nat)
    requires Inv(s) && IsRunning(s, c, p)
    ensures s.procs[p].state == RUNNING && s.procs[p].on == c
  {
    assert CpuOk(s, c) && ProcOk(s, p);
  }

  lemma ExitKeeps(s: State, t: State, c: nat, p: nat)
    requires Inv(s) && Exit(s, t, c, p)
    ensures Inv(t)
  {
    hide LeavesZombie;
    assert CpuOk(s, c) && ProcOk(s, p);
    forall d | 0 <= d < |t.cpus| ensures CpuOk(t, d) { assert CpuOk(s, d); }
    hide CpuOk, ProcOk, ExitTable;
    forall q | 0 <= q < |t.procs| ensures ProcOk(t, q) { ExitProcKeeps(s, t, c, p, q); }
  }

  lemma ExitProcKeeps(s: State, t: State, c: nat, p: nat, q: nat)
    requires Inv(s) && Exit(s, t, c, p) && q < |t.procs|
    ensures ProcOk(t, q)
  {
    RunsNow(s, c, p);
    assert CpuOk(s, c) && ProcOk(s, p) && ProcOk(s, q);
    hide LeavesZombie, CpuOk;
    assert OnOk(t, q) && ActOk(t, q) && PosOk(t, q);
    ExitParentKeeps(s, t, c, p, q);
    if InWait(t, q) {
      var r :| 0 <= r < |s.procs| && s.procs[r].parent == q;
      assert t.procs[r].parent == q;
    }
  }

  /** Who is alive before another process exits is alive after, and cannot be left sleeping in
      wait on the zombie. */
  lemma ExitAlive(s: State, t: State, p: nat, r: nat)
    requires p < |s.procs| && r < |s.procs| && r != p && t.procs == ExitTable(s.procs, p)
    requires Alive(s.procs[r]) && ActOk(s, r)
    ensures Alive(t.procs[r])
    ensures s.procs[p].parent == r ==> !InWait(t, r)
    ensures r == INIT && LeavesZombie(s.procs, p) ==> !InWait(t, r)
    ensures !InWait(s, r) ==> !InWait(t, r)
  {
    hide LeavesZombie;
  }

  lemma ExitParentKeeps(s: State, t: State, c: nat, p: nat, q: nat)
    requires Inv(s) && Exit(s, t, c, p) && q < |t.procs|
    ensures ParentOk(t, q)
  {
    RunsNow(s, c, p);
    assert ProcOk(s, p) && ProcOk(s, q) && ProcOk(s, INIT);
    assert ParentOk(s, q) && ParentOk(s, INIT) && p != INIT;
    hide Inv, ProcOk, OnOk, CpuOk, KidOk;
    ExitAlive(s, t, p, INIT);
    var x := s.procs[q];
    if x.parent != -1 && x.parent != p {
      assert ProcOk(s, x.parent);
      ExitAlive(s, t, p, x.parent);
    }
  }

  lemma SchedKeeps(s: State, t: State, c: nat)
    requires Inv(s) && SchedStep(s, t, c)
    ensures Inv(t)
  {
    hide Inv;
    if SchedAcquire(s, t, c) || SchedRelease(s, t, c) { SchedLockKeeps(s, t, c); }
    else if SchedBack(s, t, c) { SchedBackKeeps(s, t, c); }
    else {
      var p :| SchedPick(s, t, c, p);
      SchedPickKeeps(s, t, c, p);
    }
  }

  lemma WaitKeeps(s: State, t: State, c: nat, p: nat)
    requires Inv(s) && WaitStep(s, t, c, p)
    ensures Inv(t)
  {
    hide Inv, WaitFails, WaitSleeps, WaitAgain, WaitReaps;
    if WaitFails(s, t, c, p) || WaitAgain(s, t, c, p) { WaitFailsKeeps(s, t, c, p); }
    else if WaitSleeps(s, t, c, p) { WaitSleepsKeeps(s, t, c, p); }
    else {
      var q :| WaitReaps(s, t, c, p, q);
      WaitReapsKeeps(s, t, c, p, q);
    }
  }

  lemma ForkKeeps(s: State, t: State, c: nat, p: nat)
    requires Inv(s) && ForkStep(s, t, c, p)
    ensures Inv(t)
  {
    hide Inv, ForkFails, ForkParent, ForkPublish, ForkAlloc;
    if ForkFails(s, t, c, p) { ForkFailsKeeps(s, t, c, p); }
    else if ForkParent(s, t, c, p) { ForkParentKeeps(s, t, c, p); }
    else if ForkPublish(s, t, c, p) { ForkPublishKeeps(s, t, c, p); }
    else {
      var np :| ForkAlloc(s, t, c, p, np);
      ForkAllocKeeps(s, t, c, p, np);
    }
  }

  lemma ProcKeeps(s: State, t: State, c: nat, p: nat)
    requires Inv(s) && ProcStep(s, t, c, p)
    ensures Inv(t)
  {
    hide Inv, WaitStep, ForkStep, Leave, Yield, Sleep, Exit, Enter;
    if WaitStep(s, t, c, p) { WaitKeeps(s, t, c, p); }
    else if ForkStep(s, t, c, p) { ForkKeeps(s, t, c, p); }
    else if Leave(s, t, c, p) { LeaveKeeps(s, t, c, p); }
    else if Yield(s, t, c, p) { YieldKeeps(s, t, c, p); }
    else if Sleep(s, t, c, p) { SleepKeeps(s, t, c, p); }
    else if Exit(s, t, c, p) { ExitKeeps(s, t, c, p); }
    else {
      var act :| Enter(s, t, c, p, act);
      EnterKeeps(s, t, c, p, act);
    }
  }

  lemma StepKeeps(s: State, t: State)
    requires Inv(s) && Next(s, t)
    ensures Inv(t)
  {
    hide Inv, SchedStep, ProcStep, Wakeup, Kill;
    if c :| SchedStep(s, t, c) { SchedKeeps(s, t, c); }
    else if c, p :| ProcStep(s, t, c, p) { ProcKeeps(s, t, c, p); }
    else if ch :| Wakeup(s, t, ch) { WakeupKeeps(s, t, ch); }
    else {
      var q :| Kill(s, t, q);
      KillKeeps(s, t, q);
    }
  }

  // ---- Pids

  predicate PidOk(s: State, p: nat)
    requires p < |s.procs|
  {
    var x := s.procs[p];
    && (x.state != UNUSED ==> x.pid < s.nextpid && x.pid !in s.reaped && (x.pid in s.exited <==> x.state == ZOMBIE))
  }

  predicate PidsDiffer(s: State, p: nat, q: nat)
    requires p < |s.procs| && q < |s.procs|
  {
    s.procs[p].state != UNUSED && s.procs[q].state != UNUSED ==> s.procs[p].pid != s.procs[q].pid
  }

  ghost predicate ZombieWith(s: State, e: nat) {
    exists q :: 0 <= q < |s.procs| && s.procs[q].state == ZOMBIE && s.procs[q].pid == e
  }

  /** A pid names one process; what has exited is a zombie or has been reaped, once. */
  ghost predicate PidInv(s: State) {
    && (forall p :: 0 <= p < |s.procs| ==> PidOk(s, p))
    && (forall p, q :: 0 <= p < q < |s.procs| ==> PidsDiffer(s, p, q))
    && Distinct(s.reaped) && (forall e :: e in s.reaped ==> e in s.exited)
    && (forall e :: e in s.exited ==> e < s.nextpid && (e in s.reaped || ZombieWith(s, e)))
  }

  /** Steps that neither name, end nor reap a process. */
  ghost predicate SameSlot(x: Proc, y: Proc) {
    y.pid == x.pid && (y.state == ZOMBIE <==> x.state == ZOMBIE) && (x.state == UNUSED ==> y.state == UNUSED)
  }

  ghost predicate SamePids(s: State, t: State) {
    && |t.procs| == |s.procs| && t.nextpid == s.nextpid && t.exited == s.exited && t.reaped == s.reaped
    && forall q :: 0 <= q < |s.procs| ==> SameSlot(s.procs[q], t.procs[q])
  }

  lemma SamePidsKeep(s: State, t: State)
    requires PidInv(s) && SamePids(s, t)
    ensures PidInv(t)
  {
    forall p | 0 <= p < |t.procs| ensures PidOk(t, p) { assert PidOk(s, p) && SameSlot(s.procs[p], t.procs[p]); }
    forall p, q | 0 <= p < q < |t.procs| ensures PidsDiffer(t, p, q) {
      assert PidsDiffer(s, p, q) && SameSlot(s.procs[p], t.procs[p]) && SameSlot(s.procs[q], t.procs[q]);
    }
    forall e | e in t.exited ensures e < t.nextpid && (e in t.reaped || ZombieWith(t, e)) {
      if e !in t.reaped {
        var q :| 0 <= q < |s.procs| && s.procs[q].state == ZOMBIE && s.procs[q].pid == e;
        assert SameSlot(s.procs[q], t.procs[q]);
      }
    }
  }

  lemma ExitPids(s: State, t: State, c: nat, p: nat)
    requires Inv(s) && PidInv(s) && Exit(s, t, c, p)
    ensures PidInv(t)
  {
    RunsNow(s, c, p);
    hide Inv, LeavesZombie;
    assert PidOk(s, p);
    forall q | 0 <= q < |t.procs| ensures PidOk(t, q) {
      assert PidOk(s, q) && (q != p ==> PidsDiffer(s, if q < p then q else p, if q < p then p else q));
    }
    forall q, r | 0 <= q < r < |t.procs| ensures PidsDiffer(t, q, r) { assert PidsDiffer(s, q, r); }
    forall e | e in t.exited ensures e < t.nextpid && (e in t.reaped || ZombieWith(t, e)) {
      if e == s.procs[p].pid {
        assert t.procs[p].state == ZOMBIE && t.procs[p].pid == e;
      } else if e !in t.reaped {
        var q :| 0 <= q < |s.procs| && s.procs[q].state == ZOMBIE && s.procs[q].pid == e;
        assert t.procs[q].state == ZOMBIE && t.procs[q].pid == e;
      }
    }
  }

  lemma ReapPids(s: State, t: State, c: nat, p: nat, z: nat)
    requires Inv(s) && PidInv(s) && WaitReaps(s, t, c, p, z)
    ensures PidInv(t)
  {
    RunsNow(s, c, p);
    hide Inv;
    assert PidOk(s, z);
    forall q | 0 <= q < |t.procs| ensures PidOk(t, q) {
      assert PidOk(s, q) && (q != z ==> PidsDiffer(s, if q < z then q else z, if q < z then z else q));
    }
    forall q, r | 0 <= q < r < |t.procs| ensures PidsDiffer(t, q, r) { assert PidsDiffer(s, q, r); }
    forall e | e in t.exited ensures e < t.nextpid && (e in t.reaped || ZombieWith(t, e)) {
      if e !in t.reaped {
        var q :| 0 <= q < |s.procs| && s.procs[q].state == ZOMBIE && s.procs[q].pid == e;
        assert t.procs[q].state == ZOMBIE && t.procs[q].pid == e;
      }
    }
  }

  lemma AllocPids(s: State, t: State, c: nat, p: nat, np: nat)
    requires Inv(s) && PidInv(s) && ForkAlloc(s, t, c, p, np)
    ensures PidInv(t)
  {
    RunsNow(s, c, p);
    hide Inv;
    forall q | 0 <= q < |t.procs| ensures PidOk(t, q) { assert PidOk(s, q); }
    forall q, r | 0 <= q < r < |t.procs| ensures PidsDiffer(t, q, r) {
      assert PidsDiffer(s, q, r) && PidOk(s, q) && PidOk(s, r);
    }
    forall e | e in t.exited ensures e < t.nextpid && (e in t.reaped || ZombieWith(t, e)) {
      if e !in t.reaped {
        var q :| 0 <= q < |s.procs| && s.procs[q].state == ZOMBIE && s.procs[q].pid == e;
        assert t.procs[q].state == ZOMBIE && t.procs[q].pid == e;
      }
    }
  }

  lemma ForkSame(s: State, t: State, c: nat, p: nat)
    requires Inv(s) && (ForkFails(s, t, c, p) || ForkParent(s, t, c, p) || ForkPublish(s, t, c, p))
    ensures SamePids(s, t)
  {
    RunsNow(s, c, p);
    assert ProcOk(s, p);
  }

  lemma ProcSame(s: State, t: State, c: nat, p: nat)
    requires Inv(s) && ProcStep(s, t, c, p) && !Exit(s, t, c, p) && !ForkStep(s, t, c, p)
    requires forall q :: !WaitReaps(s, t, c, p, q)
    ensures SamePids(s, t)
  {
    assert IsRunning(s, c, p);
    RunsNow(s, c, p);
  }

  lemma SchedSame(s: State, t: State, c: nat)
    requires Inv(s) && SchedStep(s, t, c)
    ensures SamePids(s, t)
  {
  }

  lemma WakeupSame(s: State, t: State, ch: Chan)
    requires Inv(s) && Wakeup(s, t, ch)
    ensures SamePids(s, t)
  {
  }

  lemma KillSame(s: State, t: State, q: nat)
    requires Inv(s) && Kill(s, t, q)
    ensures SamePids(s, t)
  {
  }

  lemma PidStep(s: State, t: State)
    requires Inv(s) && PidInv(s) && Next(s, t)
    ensures PidInv(t)
  {
    hide Inv, PidInv, SamePids, ProcStep, ForkStep;
    if c, p, q :| WaitReaps(s, t, c, p, q) { ReapPids(s, t, c, p, q); }
    else if c, p, np :| ForkAlloc(s, t, c, p, np) { AllocPids(s, t, c, p, np); }
    else if c, p :| Exit(s, t, c, p) { ExitPids(s, t, c, p); }
    else { OtherSame(s, t); SamePidsKeep(s, t); }
  }

  lemma OtherSame(s: State, t: State)
    requires Inv(s) && Next(s, t)
    requires forall c, p, q :: !WaitReaps(s, t, c, p, q)
    requires forall c, p, np :: !ForkAlloc(s, t, c, p, np)
    requires forall c, p :: !Exit(s, t, c, p)
    ensures SamePids(s, t)
  {
    hide Inv, SamePids, ProcStep, SchedStep, Wakeup, Kill, WaitReaps, ForkAlloc, Exit;
    hide ForkFails, ForkParent, ForkPublish;
    if c, p :| ProcStep(s, t, c, p) {
      if ForkStep(s, t, c, p) { ForkSame(s, t, c, p); } else { ProcSame(s, t, c, p); }
    } else if c :| SchedStep(s, t, c) {
      SchedSame(s, t, c);
    } else if ch :| Wakeup(s, t, ch) {
      WakeupSame(s, t, ch);
    } else {
      var q :| Kill(s, t, q);
      KillSame(s, t, q);
    }
  }

  // ---- Every run

  /** A slot of the zeroed table. */
  predicate Vacant(x: Proc) {
    && x.state == UNUSED && x.pid == 0 && x.parent == -1 && x.chan == NoChan && !x.killed
    && x.pos == Elsewhere && x.on == -1
  }

  /** userinit has made the first process. */
  predicate Init(s: State) {
    && |s.procs| > 0 && s.lock == -1 && s.nextpid == 2 && s.exited == {} && s.reaped == s.takers == []
    && s.procs[INIT] == Proc(RUNNABLE, 1, -1, NoChan, false, Elsewhere, ForkRet, -1, -1)
    && (forall p :: 0 < p < |s.procs| ==> Vacant(s.procs[p]))
    && (forall c :: 0 <= c < |s.cpus| ==> s.cpus[c] == Cpu(Idle, -1))
  }

  ghost predicate Run(run: seq<State>) {
    && |run| > 0 && Init(run[0])
    && forall i {:trigger Next(run[i], run[i + 1])} :: 0 <= i < |run| - 1 ==> Next(run[i], run[i + 1])
  }

  lemma InitOk(s: State)
    requires Init(s)
    ensures Inv(s) && PidInv(s)
  {
    forall c | 0 <= c < |s.cpus| ensures CpuOk(s, c) { }
    forall p | 0 <= p < |s.procs| ensures ProcOk(s, p) && PidOk(s, p) { assert p > 0 ==> Vacant(s.procs[p]); }
    forall p, q | 0 <= p < q < |s.procs| ensures PidsDiffer(s, p, q) { assert Vacant(s.procs[q]); }
  }

  lemma {:induction false} RunKeeps(run: seq<State>, i: nat)
    requires Run(run) && i < |run|
    ensures Inv(run[i]) && PidInv(run[i])
  {
    hide Inv, PidInv, Init, Next;
    if i == 0 {
      InitOk(run[0]);
    } else {
      var j := i - 1;
      RunKeeps(run, j);
      assert Next(run[j], run[j + 1]);
      StepKeeps(run[j], run[i]);
      PidStep(run[j], run[i]);
    }
  }

  predicate PointsTo(s: State, c: nat, p: nat) { c < |s.cpus| && s.cpus[c].proc == p }

  /** Whenever ptable.lock is free, a process is RUNNING if and only if some CPU's proc field
      points to it, and never do two. */
  lemma RunningOnOneCpu(run: seq<State>, i: nat, p: nat)
    requires Run(run) && i < |run| && p < |run[i].procs|
    ensures run[i].lock == -1 ==> (run[i].procs[p].state == RUNNING <==> exists c :: PointsTo(run[i], c, p))
    ensures forall c, d :: PointsTo(run[i], c, p) && PointsTo(run[i], d, p) ==> c == d
  {
    var s := run[i];
    RunKeeps(run, i);
    assert ProcOk(s, p);
    if s.lock == -1 {
      if s.procs[p].state == RUNNING { assert PointsTo(s, s.procs[p].on, p); }
      if c :| PointsTo(s, c, p) { assert CpuOk(s, c); }
    }
    forall c, d | PointsTo(s, c, p) && PointsTo(s, d, p) ensures c == d { assert CpuOk(s, c) && CpuOk(s, d); }
  }

  /** A process asleep in wait has a child and no zombie child, and everybody's parent is alive. */
  lemma WaitersAreRight(run: seq<State>, i: nat, p: nat)
    requires Run(run) && i < |run| && p < |run[i].procs|
    ensures var s := run[i];
      && (InWait(s, p) ==> HasChild(s.procs, p) && forall q: nat :: !ZombieChild(s.procs, p, q))
      && (s.procs[p].parent != -1 ==> 0 <= s.procs[p].parent < |s.procs| && Alive(s.procs[s.procs[p].parent]))
  {
    var s := run[i];
    RunKeeps(run, i);
    assert ProcOk(s, p);
    forall q: nat | InWait(s, p) ensures !ZombieChild(s.procs, p, q) {
      assert q < |s.procs| ==> ProcOk(s, q);
    }
  }

  /** wait returns each exited pid at most once, and nothing else; who has exited and not been
      returned is still a zombie. */
  lemma ReapedOnce(run: seq<State>, i: nat)
    requires Run(run) && i < |run|
    ensures Distinct(run[i].reaped)
    ensures forall e :: e in run[i].reaped ==> e in run[i].exited && !ZombieWith(run[i], e)
    ensures forall e :: e in run[i].exited ==> e in run[i].reaped || ZombieWith(run[i], e)
  {
    var s := run[i];
    RunKeeps(run, i);
    forall e | e in s.reaped ensures !ZombieWith(s, e) {
      forall q | 0 <= q < |s.procs| && s.procs[q].state == ZOMBIE ensures s.procs[q].pid != e { assert PidOk(s, q); }
    }
  }

  /** The step in which wait, called by the process in slot `p`, takes the zombie child with the
      given pid and returns. */
  ghost predicate WaitReturns(s: State, t: State, p: nat, pid: nat) {
    && p < |s.procs| && p < |t.procs| && s.procs[p].act == Scan && t.procs[p].act == Free
    && (exists c :: IsRunning(s, c, p))
    && (exists q: nat :: ZombieChild(s.procs, p, q) && s.procs[q].pid == pid)
    && t.reaped == s.reaped + [pid] && t.takers == s.takers + [p]
  }

  lemma ReapReturns(s: State, t: State, c: nat, p: nat, q: nat)
    requires Inv(s) && WaitReaps(s, t, c, p, q)
    ensures WaitReturns(s, t, p, s.procs[q].pid)
  {
    RunsNow(s, c, p);
    hide Inv;
    assert ZombieChild(s.procs, p, q);
  }

  lemma StepReaps(s: State, t: State) returns (p: nat)
    requires Next(s, t) && Inv(s)
    ensures (t.reaped == s.reaped && t.takers == s.takers) || exists pid :: WaitReturns(s, t, p, pid)
  {
    hide Inv, WaitReturns;
    p := 0;
    if c: nat, w: nat, q: nat :| WaitReaps(s, t, c, w, q) {
      p := w;
      ReapReturns(s, t, c, w, q);
    } else {
      OthersReapNothing(s, t);
    }
  }

  /** In every run: each pid that wait has returned went, in one step `j`, to the process that
      was its parent at that moment. */
  lemma {:induction false} ReapedByParent(run: seq<State>, i: nat, k: nat) returns (j: nat)
    requires Run(run) && i < |run| && k < |run[i].reaped|
    ensures |run[i].takers| == |run[i].reaped|
    ensures j < i && |run[j].reaped| == k && WaitReturns(run[j], run[j + 1], run[i].takers[k], run[i].reaped[k])
  {
    hide Inv, PidInv, Next, WaitReturns, Init;
    TakersMatch(run, i);
    NoneAtStart(run[0]);
    var h: nat := i - 1;
    TakersMatch(run, h);
    assert Next(run[h], run[h + 1]);
    RunKeeps(run, h);
    var p := StepReaps(run[h], run[i]);
    if k < |run[h].reaped| {
      j := ReapedByParent(run, h, k);
      assert run[i].reaped[k] == run[h].reaped[k] && run[i].takers[k] == run[h].takers[k] by { StepAppends(run, h); }
    } else {
      j := h;
      var pid :| WaitReturns(run[h], run[i], p, pid);
      LastReturned(run[h], run[i], p, pid);
    }
  }

  lemma NoneAtStart(s: State)
    requires Init(s)
    ensures s.reaped == []
  {
  }

  lemma LastReturned(s: State, t: State, p: nat, pid: nat)
    requires WaitReturns(s, t, p, pid) && |s.takers| == |s.reaped|
    ensures |t.reaped| == |t.takers| == |s.reaped| + 1 && t.reaped[|s.reaped|] == pid && t.takers[|s.reaped|] == p
  {
  }

  lemma StepAppends(run: seq<State>, h: nat)
    requires Run(run) && h + 1 < |run| && |run[h].takers| == |run[h].reaped|
    ensures |run[h + 1].takers| == |run[h + 1].reaped| >= |run[h].reaped|
    ensures run[h].reaped <= run[h + 1].reaped && run[h].takers <= run[h + 1].takers
  {
    assert Next(run[h], run[h + 1]);
    RunKeeps(run, h);
    hide Inv, PidInv, Next;
    var p := StepReaps(run[h], run[h + 1]);
  }

  lemma {:induction false} TakersMatch(run: seq<State>, i: nat)
    requires Run(run) && i < |run|
    ensures |run[i].takers| == |run[i].reaped| && (i == 0 ==> run[i].reaped == [])
  {
    if i > 0 {
      TakersMatch(run, i - 1);
      StepAppends(run, i - 1);
    }
  }

  lemma OthersReapNothing(s: State, t: State)
    requires Next(s, t) && forall c, p, q :: !WaitReaps(s, t, c, p, q)
    ensures t.reaped == s.reaped && t.takers == s.takers
  {
    if c, p :| ProcStep(s, t, c, p) {
    } else if c :| SchedStep(s, t, c) {
    } else if ch :| Wakeup(s, t, ch) {
    } else {
      var q :| Kill(s, t, q);
    }
  }

  // ---- A whole life: fork, sleep in wait, exit, reap

  lemma Extend(run: seq<State>, t: State)
    requires Run(run) && Next(run[|run| - 1], t)
    ensures Run(run + [t])
  {
    hide Next;
    var r := run + [t];
    forall i | 0 <= i < |r| - 1 ensures Next(r[i], r[i + 1]) {
      if i < |run| - 1 { assert Next(run[i], run[i + 1]); }
    }
  }

  /** init is running on the only CPU; the other slot is free. */
  lemma InitRuns() returns (run: seq<State>, s: State)
    ensures Run(run) && s == run[|run| - 1]
    ensures s == State([Proc(RUNNING, 1, -1, NoChan, false, Elsewhere, Free, 0, -1),
                        Proc(UNUSED, 0, -1, NoChan, false, Elsewhere, Free, -1, -1)],
                       [Cpu(Running, 0)], -1, 2, {}, [], [])
  {
    var init := Proc(RUNNABLE, 1, -1, NoChan, false, Elsewhere, ForkRet, -1, -1);
    var none := Proc(UNUSED, 0, -1, NoChan, false, Elsewhere, Free, -1, -1);
    var s0 := State([init, none], [Cpu(Idle, -1)], -1, 2, {}, [], []);
    var s1 := s0.(lock := 0, cpus := [Cpu(Picking, -1)]);
    var s2 := s1.(cpus := [Cpu(Running, 0)], procs := [init.(state := RUNNING, on := 0), none]);
    s := s2.(lock := -1, procs := [init.(state := RUNNING, on := 0, act := Free), none]);
    assert SchedAcquire(s0, s1, 0) && SchedPick(s1, s2, 0, 0) && Leave(s2, s, 0, 0);
    assert SchedStep(s0, s1, 0) && SchedStep(s1, s2, 0) && ProcStep(s2, s, 0, 0);
    run := [s0];
    Extend(run, s1);
    run := run + [s1];
    Extend(run, s2);
    run := run + [s2];
    Extend(run, s);
    run := run + [s];
  }

  lemma InitForks() returns (run: seq<State>, s: State)
    ensures Run(run) && s == run[|run| - 1]
    ensures s == State([Proc(RUNNING, 1, -1, NoChan, false, Elsewhere, Free, 0, -1),
                        Proc(RUNNABLE, 2, 0, NoChan, false, Elsewhere, ForkRet, -1, 0)],
                       [Cpu(Running, 0)], -1, 3, {}, [], [])
  {
    var s0;
    run, s0 := InitRuns();
    var p, q := s0.procs[0], s0.procs[1];
    var e := q.(state := EMBRYO, pid := 2, act := ForkRet, maker := 0);
    var s1 := s0.(procs := [p.(pos := Forking(1)), e], nextpid := 3);
    var s2 := s1.(procs := [p.(pos := Forked(1)), e.(parent := 0)]);
    s := s2.(procs := [p, e.(parent := 0, state := RUNNABLE)]);
    assert ForkAlloc(s0, s1, 0, 0, 1) && ForkParent(s1, s2, 0, 0) && ForkPublish(s2, s, 0, 0);
    assert ForkStep(s0, s1, 0, 0) && ForkStep(s1, s2, 0, 0) && ForkStep(s2, s, 0, 0);
    assert ProcStep(s0, s1, 0, 0) && ProcStep(s1, s2, 0, 0) && ProcStep(s2, s, 0, 0);
    Extend(run, s1);
    run := run + [s1];
    Extend(run, s2);
    run := run + [s2];
    Extend(run, s);
    run := run + [s];
  }

  lemma InitWaits() returns (run: seq<State>, s: State)
    ensures Run(run) && s == run[|run| - 1] && InWait(s, 0)
    ensures s == State([Proc(SLEEPING, 1, -1, OfProc(0), false, Elsewhere, WaitBack, -1, -1),
                        Proc(RUNNABLE, 2, 0, NoChan, false, Elsewhere, ForkRet, -1, 0)],
                       [Cpu(Picking, -1)], 0, 3, {}, [], [])
  {
    var s0;
    run, s0 := InitForks();
    var p, q := s0.procs[0], s0.procs[1];
    var s1 := s0.(lock := 0, procs := [p.(act := Scan), q]);
    var z := p.(state := SLEEPING, chan := OfProc(0), act := WaitBack);
    var s2 := s1.(procs := [z, q], cpus := [Cpu(Back, 0)]);
    s := s2.(procs := [z.(on := -1), q], cpus := [Cpu(Picking, -1)]);
    assert Enter(s0, s1, 0, 0, Scan);
    assert s1.procs[1].parent == 0;
    assert WaitSleeps(s1, s2, 0, 0) && SchedBack(s2, s, 0);
    assert ProcStep(s0, s1, 0, 0) && WaitStep(s1, s2, 0, 0) && ProcStep(s1, s2, 0, 0) && SchedStep(s2, s, 0);
    Extend(run, s1);
    run := run + [s1];
    Extend(run, s2);
    run := run + [s2];
    Extend(run, s);
    run := run + [s];
  }

  lemma ChildRuns() returns (run: seq<State>, s: State)
    ensures Run(run) && s == run[|run| - 1]
    ensures s == State([Proc(SLEEPING, 1, -1, OfProc(0), false, Elsewhere, WaitBack, -1, -1),
                        Proc(RUNNING, 2, 0, NoChan, false, Elsewhere, Exit0, 0, 0)],
                       [Cpu(Running, 1)], 0, 3, {}, [], [])
  {
    var s0;
    run, s0 := InitWaits();
    var p, q := s0.procs[0], s0.procs[1];
    var s1 := s0.(cpus := [Cpu(Running, 1)], procs := [p, q.(state := RUNNING, on := 0)]);
    var s2 := s1.(lock := -1, procs := [p, q.(state := RUNNING, on := 0, act := Free)]);
    s := s2.(lock := 0, procs := [p, q.(state := RUNNING, on := 0, act := Exit0)]);
    assert SchedPick(s0, s1, 0, 1) && Leave(s1, s2, 0, 1) && Enter(s2, s, 0, 1, Exit0);
    assert SchedStep(s0, s1, 0) && ProcStep(s1, s2, 0, 1) && ProcStep(s2, s, 0, 1);
    Extend(run, s1);
    run := run + [s1];
    Extend(run, s2);
    run := run + [s2];
    Extend(run, s);
    run := run + [s];
  }

  lemma ChildExits() returns (run: seq<State>, s: State)
    ensures Run(run) && s == run[|run| - 1]
    ensures s == State([Proc(RUNNABLE, 1, -1, OfProc(0), false, Elsewhere, WaitBack, -1, -1),
                        Proc(ZOMBIE, 2, 0, NoChan, false, Elsewhere, Dead, -1, 0)],
                       [Cpu(Picking, -1)], 0, 3, {2}, [], [])
  {
    var s0;
    run, s0 := ChildRuns();
    var p, q := s0.procs[0], s0.procs[1];
    var s1 := s0.(procs := [p.(state := RUNNABLE), q.(state := ZOMBIE, act := Dead)],
                  cpus := [Cpu(Back, 1)], exited := {2});
    s := s1.(procs := [s1.procs[0], s1.procs[1].(on := -1)], cpus := [Cpu(Picking, -1)]);
    assert ExitTable(s0.procs, 1) == s1.procs;
    assert Exit(s0, s1, 0, 1) && SchedBack(s1, s, 0);
    assert ProcStep(s0, s1, 0, 1) && SchedStep(s1, s, 0);
    Extend(run, s1);
    run := run + [s1];
    Extend(run, s);
    run := run + [s];
  }

  /** The run ends with wait having returned the child's pid to init. */
  lemma ChildReaped() returns (run: seq<State>)
    ensures Run(run) && run[|run| - 1].reaped == [2] && run[|run| - 1].takers == [INIT]
  {
    var s0;
    run, s0 := ChildExits();
    var p, q := s0.procs[0], s0.procs[1];
    var s1 := s0.(cpus := [Cpu(Running, 0)], procs := [p.(state := RUNNING, on := 0), q]);
    var s2 := s1.(procs := [p.(state := RUNNING, on := 0, act := Scan, chan := NoChan), q]);
    var s3 := s2.(procs := [s2.procs[0].(act := Free), q.(state := UNUSED, pid := 0, parent := -1, killed := false)],
                  lock := -1, reaped := [2], takers := [0]);
    assert SchedPick(s0, s1, 0, 0) && WaitAgain(s1, s2, 0, 0);
    assert ZombieChild(s2.procs, 0, 1) && !ZombieChild(s2.procs, 0, 0);
    assert WaitReaps(s2, s3, 0, 0, 1);
    assert SchedStep(s0, s1, 0) && WaitStep(s1, s2, 0, 0) && WaitStep(s2, s3, 0, 0);
    assert ProcStep(s1, s2, 0, 0) && ProcStep(s2, s3, 0, 0);
    Extend(run, s1);
    run := run + [s1];
    Extend(run, s2);
    run := run + [s2];
    Extend(run, s3);
    run := run + [s3];
  }
}
