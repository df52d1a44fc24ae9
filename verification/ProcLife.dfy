/** What the steps of the process table do to a process: its states in order, who may change its pid,
    parent and killed flag, and who wakes it. */
module ProcLife {
  import opened Proc

  // ---- Sleep, wakeup and kill

  /** After wakeup nobody sleeps on the channel; who did is RUNNABLE, and nothing else has changed. */
  lemma WakeupWakesAll(s: State, t: State, ch: Chan)
    requires Wakeup(s, t, ch)
    ensures |t.procs| == |s.procs| && t == s.(procs := t.procs)
    ensures forall p :: 0 <= p < |s.procs| ==> !(t.procs[p].state == SLEEPING && t.procs[p].chan == ch)
    ensures forall p :: 0 <= p < |s.procs| && s.procs[p].state == SLEEPING && s.procs[p].chan == ch ==>
      t.procs[p] == s.procs[p].(state := RUNNABLE)
    ensures forall p :: 0 <= p < |s.procs| && !(s.procs[p].state == SLEEPING && s.procs[p].chan == ch) ==>
      t.procs[p] == s.procs[p]
  {
  }

  /** The process is inside sleep on this channel, and has not been woken. */
  predicate SleepsOn(s: State, p: nat, ch: Chan) {
    && p < |s.procs|
    && var x := s.procs[p];
       (x.state == RUNNING && x.act == Sleep0(ch)) || (x.state == SLEEPING && x.chan == ch)
  }

  /** While nobody holds the lock, who is RUNNING is in none of the locked sections. */
  lemma LockIsFree(s: State, p: nat)
    requires Inv(s) && s.lock == -1 && p < |s.procs|
    ensures s.procs[p].state == RUNNING ==> s.procs[p].act == Free
  {
    assert ProcOk(s, p);
    assert s.procs[p].state == RUNNING ==> CpuOk(s, s.procs[p].on);
  }

  /** wakeup misses nobody who has begun to sleep: the lock is held until the process is SLEEPING. */
  lemma NobodyMissed(s: State, t: State, ch: Chan, p: nat)
    requires Inv(s) && Wakeup(s, t, ch) && SleepsOn(s, p, ch)
    ensures p < |t.procs| && t.procs[p].state == RUNNABLE && !SleepsOn(t, p, ch)
  {
    LockIsFree(s, p);
  }

  /** kill marks its target, which does not sleep any more, and changes nothing else. */
  lemma KillMarks(s: State, t: State, q: nat)
    requires Kill(s, t, q)
    ensures s.lock == -1 && q < |s.procs| == |t.procs| && t == s.(procs := s.procs[q := t.procs[q]])
    ensures t.procs[q].killed && t.procs[q].state != SLEEPING
    ensures t.procs[q] == s.procs[q].(killed := true, state := t.procs[q].state)
    ensures s.procs[q].state != SLEEPING ==> t.procs[q].state == s.procs[q].state
    ensures s.procs[q].state == SLEEPING ==> t.procs[q].state == RUNNABLE
  {
  }

  /** exit: the process is a zombie, its children are init's, the parent that slept in wait is RUNNABLE,
      and so is init if it slept there and a zombie was left to it. Everybody else sleeps on. */
  lemma ExitEffect(s: State, t: State, c: nat, p: nat)
    requires Inv(s) && Exit(s, t, c, p)
    ensures p < |s.procs| == |t.procs| && s.procs[p].state == RUNNING && 0 <= s.procs[p].parent < |s.procs|
    ensures t.procs[p] == s.procs[p].(state := ZOMBIE, act := Dead) && t.exited == s.exited + {s.procs[p].pid}
    ensures forall q :: 0 <= q < |s.procs| ==>
      t.procs[q].parent == if s.procs[q].parent == p then 0 else s.procs[q].parent
    ensures InWait(s, s.procs[p].parent) ==> t.procs[s.procs[p].parent].state == RUNNABLE
    ensures InWait(s, 0) && (exists q :: 0 <= q < |s.procs| && s.procs[q].parent == p && s.procs[q].state == ZOMBIE) ==>
      t.procs[0].state == RUNNABLE
    ensures forall q :: 0 <= q < |s.procs| && q != p ==>
      t.procs[q] == s.procs[q].(state := t.procs[q].state, parent := t.procs[q].parent)
    ensures forall q :: 0 <= q < |s.procs| && q != p && t.procs[q].state != s.procs[q].state ==>
      && s.procs[q].state == SLEEPING && t.procs[q].state == RUNNABLE
      && (s.procs[q].chan == OfProc(s.procs[p].parent) || s.procs[q].chan == OfProc(0))
  {
    assert CpuOk(s, c) && ProcOk(s, p);
    var up := s.procs[p].parent;
    assert ProcOk(s, 0);
    if InWait(s, up) { assert ProcOk(s, up); }
  }

  // ---- The life of a process

  /** The states follow one another in this order. */
  predicate Follows(a: RunState, b: RunState) {
    || a == b
    || (a == UNUSED && b == EMBRYO)
    || (a == EMBRYO && (b == RUNNABLE || b == UNUSED))
    || (a == RUNNABLE && b == RUNNING)
    || (a == RUNNING && (b == RUNNABLE || b == SLEEPING || b == ZOMBIE))
    || (a == SLEEPING && b == RUNNABLE)
    || (a == ZOMBIE && b == UNUSED)
  }

  /** A new process has the next pid, which nobody had before; a reaped slot has none. */
  predicate PidRule(s: State, t: State, x: Proc, y: Proc) {
    if x.state == UNUSED && y.state == EMBRYO then y.pid == s.nextpid && t.nextpid == s.nextpid + 1
    else if x.state == ZOMBIE && y.state == UNUSED then y.pid == 0
    else y.pid == x.pid
  }

  /** A parent is who forked the process, then init once that one has exited, and none after wait. */
  predicate ParentRule(s: State, t: State, q: nat, x: Proc, y: Proc) {
    || y.parent == x.parent
    || (x.state == EMBRYO && x.parent == -1 && 0 <= y.parent < |s.procs| && s.procs[y.parent].pos == Forking(q))
    || (0 <= x.parent < |t.procs| && t.procs[x.parent].state == ZOMBIE && y.parent == 0)
    || (x.state == ZOMBIE && y.state == UNUSED && y.parent == -1)
  }

  /** killed is set by kill and reset by the wait that reaps. */
  predicate KilledRule(s: State, t: State, q: nat, x: Proc, y: Proc) {
    if x.state == ZOMBIE && y.state == UNUSED then !y.killed else y.killed == x.killed || (y.killed && Kill(s, t, q))
  }

  /** The channel is that of init or of the process's parent. */
  predicate ChildOf(s: State, p: nat, ch: Chan) {
    ch.OfProc? && (ch.p == 0 || (p < |s.procs| && s.procs[p].parent == ch.p))
  }

  /** Who sleeps does so on what it asked for; who is woken is woken by its channel, its child or kill. */
  ghost predicate SleepRule(s: State, t: State, q: nat, x: Proc, y: Proc) {
    && (x.state == RUNNING && y.state == SLEEPING ==> x.act == Sleep0(y.chan) || (x.act == Scan && y.chan == OfProc(q)))
    && (x.state == SLEEPING && y.state == RUNNABLE ==>
          || Wakeup(s, t, x.chan) || Kill(s, t, q)
          || exists c: nat, p: nat :: Exit(s, t, c, p) && ChildOf(s, p, x.chan))
  }

  ghost predicate Lives(s: State, t: State, q: nat) {
    && q < |s.procs| == |t.procs|
    && var x, y := s.procs[q], t.procs[q];
       && Follows(x.state, y.state) && PidRule(s, t, x, y) && ParentRule(s, t, q, x, y)
       && KilledRule(s, t, q, x, y) && SleepRule(s, t, q, x, y)
  }

  lemma SchedLives(s: State, t: State, c: nat, q: nat)
    requires Inv(s) && SchedStep(s, t, c) && q < |s.procs|
    ensures Lives(s, t, q)
  {
  }

  lemma ForkLives(s: State, t: State, c: nat, p: nat, q: nat)
    requires Inv(s) && ForkStep(s, t, c, p) && q < |s.procs|
    ensures Lives(s, t, q)
  {
    assert IsRunning(s, c, p);
    RunsNow(s, c, p);
    assert ProcOk(s, p) && ProcOk(s, q);
    if np :| ForkAlloc(s, t, c, p, np) {
      assert ProcOk(s, np);
    } else {
      assert ProcOk(s, s.procs[p].pos.np);
    }
  }

  lemma WaitLives(s: State, t: State, c: nat, p: nat, q: nat)
    requires Inv(s) && WaitStep(s, t, c, p) && q < |s.procs|
    ensures Lives(s, t, q)
  {
    assert IsRunning(s, c, p);
    RunsNow(s, c, p);
    assert ProcOk(s, p) && ProcOk(s, q);
  }

  lemma ExitLives(s: State, t: State, c: nat, p: nat, q: nat)
    requires Inv(s) && Exit(s, t, c, p) && q < |s.procs|
    ensures Lives(s, t, q)
  {
    ExitEffect(s, t, c, p);
    assert ProcOk(s, q);
  }

  lemma ProcLives(s: State, t: State, c: nat, p: nat, q: nat)
    requires Inv(s) && ProcStep(s, t, c, p) && q < |s.procs|
    ensures Lives(s, t, q)
  {
    hide Lives, WaitStep, ForkStep, Exit, Inv;
    if WaitStep(s, t, c, p) {
      WaitLives(s, t, c, p, q);
    } else if ForkStep(s, t, c, p) {
      ForkLives(s, t, c, p, q);
    } else if Exit(s, t, c, p) {
      ExitLives(s, t, c, p, q);
    } else {
      OwnLives(s, t, c, p, q);
    }
  }

  lemma OwnLives(s: State, t: State, c: nat, p: nat, q: nat)
    requires Inv(s) && q < |s.procs|
    requires Leave(s, t, c, p) || Yield(s, t, c, p) || Sleep(s, t, c, p) || exists act :: Enter(s, t, c, p, act)
    ensures Lives(s, t, q)
  {
    assert IsRunning(s, c, p);
    RunsNow(s, c, p);
  }

  /** Every step of every CPU, for every slot of the table. */
  lemma EveryStep(s: State, t: State, q: nat)
    requires Inv(s) && Next(s, t) && q < |s.procs|
    ensures Lives(s, t, q)
  {
    hide Lives, ProcStep, SchedStep, Wakeup, Kill, Inv;
    if c :| SchedStep(s, t, c) {
      SchedLives(s, t, c, q);
    } else if c, p :| ProcStep(s, t, c, p) {
      ProcLives(s, t, c, p, q);
    } else {
      SignalLives(s, t, q);
    }
  }

  lemma SignalLives(s: State, t: State, q: nat)
    requires q < |s.procs| && ((exists ch :: Wakeup(s, t, ch)) || exists k :: Kill(s, t, k))
    ensures Lives(s, t, q)
  {
    if ch :| Wakeup(s, t, ch) {
      WakeupWakesAll(s, t, ch);
    } else {
      var k :| Kill(s, t, k);
      KillMarks(s, t, k);
    }
  }

  /** In every run. */
  lemma LifeCycle(run: seq<State>, i: nat, q: nat)
    requires Run(run) && i + 1 < |run| && q < |run[i].procs|
    ensures Lives(run[i], run[i + 1], q)
  {
    hide Lives, Inv, Next;
    RunKeeps(run, i);
    assert Next(run[i], run[i + 1]);
    EveryStep(run[i], run[i + 1], q);
  }

  // ---- Channels

  /** Only who is inside sleep has a channel. */
  predicate ChanOk(x: Proc) {
    x.chan != NoChan ==> x.act in {SleepBack, WaitBack} && x.state in {SLEEPING, RUNNABLE, RUNNING}
  }

  ghost predicate ChansOk(s: State) { forall p :: 0 <= p < |s.procs| ==> ChanOk(s.procs[p]) }

  lemma ForkChans(s: State, t: State, c: nat, p: nat)
    requires Inv(s) && ChansOk(s) && ForkStep(s, t, c, p)
    ensures ChansOk(t)
  {
    assert IsRunning(s, c, p);
    RunsNow(s, c, p);
    assert ProcOk(s, p);
    if np :| ForkAlloc(s, t, c, p, np) {
      assert ProcOk(s, np);
    } else {
      assert ProcOk(s, s.procs[p].pos.np);
    }
    forall q | 0 <= q < |t.procs| ensures ChanOk(t.procs[q]) { assert ChanOk(s.procs[q]); }
  }

  lemma ExitChans(s: State, t: State, c: nat, p: nat)
    requires Inv(s) && ChansOk(s) && Exit(s, t, c, p)
    ensures ChansOk(t)
  {
    ExitEffect(s, t, c, p);
    hide Inv;
    forall q | 0 <= q < |t.procs| ensures ChanOk(t.procs[q]) { assert ChanOk(s.procs[q]) && ChanOk(s.procs[p]); }
  }

  lemma OtherChans(s: State, t: State, c: nat, p: nat)
    requires Inv(s) && ChansOk(s)
    requires WaitStep(s, t, c, p) || Leave(s, t, c, p) || Yield(s, t, c, p) || Sleep(s, t, c, p) ||
             exists act :: Enter(s, t, c, p, act)
    ensures ChansOk(t)
  {
    assert IsRunning(s, c, p);
    RunsNow(s, c, p);
    hide Inv;
    forall q | 0 <= q < |t.procs| ensures ChanOk(t.procs[q]) { assert ChanOk(s.procs[q]) && ChanOk(s.procs[p]); }
  }

  lemma FreeChans(s: State, t: State)
    requires ChansOk(s)
    requires (exists c :: SchedStep(s, t, c)) || (exists ch :: Wakeup(s, t, ch)) || exists k :: Kill(s, t, k)
    ensures ChansOk(t)
  {
    forall q | 0 <= q < |t.procs| ensures ChanOk(t.procs[q]) { assert q < |s.procs| && ChanOk(s.procs[q]); }
  }

  lemma StepChans(s: State, t: State)
    requires Inv(s) && ChansOk(s) && Next(s, t)
    ensures ChansOk(t)
  {
    hide Inv, ChansOk, SchedStep, Wakeup, Kill, WaitStep, ForkStep, Exit;
    if c, p :| ProcStep(s, t, c, p) {
      if ForkStep(s, t, c, p) { ForkChans(s, t, c, p); }
      else if Exit(s, t, c, p) { ExitChans(s, t, c, p); }
      else { OtherChans(s, t, c, p); }
    } else {
      FreeChans(s, t);
    }
  }

  /** In every run, who has left sleep has no channel any more, so a later wakeup does not find it. */
  lemma {:induction false} AwakeHasNoChannel(run: seq<State>, i: nat)
    requires Run(run) && i < |run|
    ensures forall p :: 0 <= p < |run[i].procs| && run[i].procs[p].act == Free ==> run[i].procs[p].chan == NoChan
    ensures ChansOk(run[i])
  {
    hide Inv, PidInv, Next;
    if i > 0 {
      var j := i - 1;
      AwakeHasNoChannel(run, j);
      RunKeeps(run, j);
      assert Next(run[j], run[j + 1]);
      StepChans(run[j], run[i]);
    } else {
      forall p | 0 <= p < |run[0].procs| ensures ChanOk(run[0].procs[p]) { assert p > 0 ==> Vacant(run[0].procs[p]); }
    }
    forall p | 0 <= p < |run[i].procs| && run[i].procs[p].act == Free ensures run[i].procs[p].chan == NoChan {
      assert ChanOk(run[i].procs[p]);
    }
  }

  // ---- What a process can do next

  /** The slots below `n` hold no zombie child of `p`. */
  predicate NoZombie(s: State, p: nat, n: nat) {
    forall q :: 0 <= q < n && q < |s.procs| ==> !(s.procs[q].parent == p && s.procs[q].state == ZOMBIE)
  }

  predicate Childless(s: State, p: nat) { forall q :: 0 <= q < |s.procs| ==> s.procs[q].parent != p }

  /** wait at the top of its loop takes the first zombie child of the table; without one it fails if there is
      no child or it was killed, and otherwise it sleeps. */
  lemma WaitDecides(s: State, t: State, c: nat, p: nat)
    requires Inv(s) && WaitStep(s, t, c, p) && s.procs[p].act == Scan
    ensures p < |s.procs| == |t.procs|
    ensures t.reaped != s.reaped <==> !NoZombie(s, p, |s.procs|)
    ensures t.reaped != s.reaped ==> exists q: nat :: Reaped(s, t, p, q)
    ensures t.procs[p].state == SLEEPING <==> NoZombie(s, p, |s.procs|) && !Childless(s, p) && !s.procs[p].killed
    ensures t.procs[p].state != SLEEPING ==> t.procs[p].act == Free && t.lock == -1
  {
    assert IsRunning(s, c, p);
    RunsNow(s, c, p);
    hide Inv;
    if q: nat :| WaitReaps(s, t, c, p, q) {
      NoneBelow(s, p, q);
      assert Reaped(s, t, p, q);
    } else {
      NoneBelow(s, p, |s.procs|);
    }
  }

  /** Slot `q` held the first zombie child of `p`, and is free now. */
  predicate Reaped(s: State, t: State, p: nat, q: nat) {
    && q < |s.procs| == |t.procs| && NoZombie(s, p, q) && s.procs[q].parent == p && s.procs[q].state == ZOMBIE
    && t.procs[q].state == UNUSED && t.reaped == s.reaped + [s.procs[q].pid] && t.lock == -1
  }

  lemma NoneBelow(s: State, p: nat, n: nat)
    requires forall r :: 0 <= r < n && r < |s.procs| ==> !ZombieChild(s.procs, p, r)
    ensures NoZombie(s, p, n)
  {
    forall q | 0 <= q < n && q < |s.procs| ensures !(s.procs[q].parent == p && s.procs[q].state == ZOMBIE) {
      assert !ZombieChild(s.procs, p, q);
    }
  }

  lemma FirstZombie(s: State, p: nat, n: nat) returns (q: nat)
    requires n <= |s.procs| && !NoZombie(s, p, n)
    ensures q < n && ZombieChild(s.procs, p, q) && forall r :: 0 <= r < q ==> !ZombieChild(s.procs, p, r)
  {
    q := 0;
    assert exists r: nat :: r < n && ZombieChild(s.procs, p, r) by {
      var r :| 0 <= r < n && s.procs[r].parent == p && s.procs[r].state == ZOMBIE;
      assert ZombieChild(s.procs, p, r);
    }
    while !ZombieChild(s.procs, p, q)
      invariant q < n && (forall r :: 0 <= r < q ==> !ZombieChild(s.procs, p, r))
      invariant exists r: nat :: q <= r < n && ZombieChild(s.procs, p, r)
      decreases n - q
    {
      q := q + 1;
    }
  }

  /** So it always decides. */
  lemma WaitMoves(s: State, c: nat, p: nat) returns (t: State)
    requires IsRunning(s, c, p) && s.procs[p].act == Scan
    ensures WaitStep(s, t, c, p)
  {
    if !NoZombie(s, p, |s.procs|) {
      var q := FirstZombie(s, p, |s.procs|);
      t := s.(procs := s.procs[q := s.procs[q].(state := UNUSED, pid := 0, parent := -1, killed := false)]
                              [p := s.procs[p].(act := Free)],
              lock := -1, reaped := s.reaped + [s.procs[q].pid], takers := s.takers + [p]);
      assert WaitReaps(s, t, c, p, q);
    } else {
      assert forall q :: 0 <= q < |s.procs| ==> !ZombieChild(s.procs, p, q);
      if !HasChild(s.procs, p) || s.procs[p].killed {
        t := Put(s, p, s.procs[p].(act := Free)).(lock := -1);
        assert WaitFails(s, t, c, p);
      } else {
        t := Put(s, p, s.procs[p].(state := SLEEPING, chan := OfProc(p), act := WaitBack))
             .(cpus := s.cpus[c := Cpu(Back, p)]);
        assert WaitSleeps(s, t, c, p);
      }
    }
  }

  /** A running process that has begun one of the locked sections can go on with it, whatever the others do;
      one that has an embryo can give it a parent or give it up. */
  lemma RunningMoves(s: State, c: nat, p: nat) returns (t: State)
    requires Inv(s) && IsRunning(s, c, p) && (s.procs[p].act != Free || s.procs[p].pos.Forking?)
    ensures ProcStep(s, t, c, p)
  {
    RunsNow(s, c, p);
    assert ProcOk(s, p);
    hide Inv;
    var x := s.procs[p];
    match x.act
    case Free =>
      t := s.(procs := s.procs[x.pos.np := s.procs[x.pos.np].(state := UNUSED)][p := x.(pos := Elsewhere)]);
      assert ForkFails(s, t, c, p) && ForkStep(s, t, c, p);
    case Scan =>
      t := WaitMoves(s, c, p);
    case WaitBack =>
      t := Put(s, p, x.(act := Scan, chan := NoChan));
      assert WaitAgain(s, t, c, p) && WaitStep(s, t, c, p);
    case Yield0 => t := Put(s, p, x.(state := RUNNABLE, act := YieldBack)).(cpus := s.cpus[c := Cpu(Back, p)]);
    case Sleep0(ch) =>
      t := Put(s, p, x.(state := SLEEPING, chan := ch, act := SleepBack)).(cpus := s.cpus[c := Cpu(Back, p)]);
    case Exit0 =>
      t := s.(procs := ExitTable(s.procs, p), cpus := s.cpus[c := Cpu(Back, p)], exited := s.exited + {x.pid});
    case Dead => assert false;
    case SleepBack => t := Put(s, p, x.(act := Free, chan := NoChan)).(lock := -1);
    case YieldBack => t := Put(s, p, x.(act := Free)).(lock := -1);
    case ForkRet => t := Put(s, p, x.(act := Free)).(lock := -1);
  }
}
