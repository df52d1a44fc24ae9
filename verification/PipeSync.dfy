/** pipewrite, piperead and pipeclose run by any number of processes, with sleep and wakeup.

    A step is what one process does between two points where another may interleave: taking or
    giving back the pipe lock or the process-table lock, storing or copying one byte, or one of
    the tests made in between. sleep takes the table lock, gives back the pipe lock, marks the
    process SLEEPING and gives the table lock to the scheduler, each a step of its own; wakeup
    needs the table lock and is one step. The table lock's other users are left out. */
module PipeSync {
  import opened Blocks
  import opened Pipe

  datatype Op = Read | Write | CloseRead | CloseWrite

  datatype Pc =
    | Idle
    | Enter(op: Op)   // before acquire(&p->lock), also after having been woken
    | Top(op: Op)     // pipe lock held: the loop test, or the body of pipeclose
    | Copy            // pipe lock held: piperead's copy loop
    | Wake            // pipe lock held: pipewrite's wakeup before it sleeps
    | Sleep0(op: Op)  // pipe lock held, calling sleep
    | Sleep1(op: Op)  // both locks held
    | Sleep2(op: Op)  // table lock held, about to be SLEEPING
    | Asleep(op: Op)
    | End(op: Op)     // pipe lock held: the last wakeup
    | Leave(op: Op)   // pipe lock held, about to release it and return

  /** `buf` is the caller's buffer: what to write, or where up to |buf| bytes go; `ret` is what the call
      returns. */
  datatype Proc = Proc(pc: Pc, buf: seq<byte>, i: nat, killed: bool, ret: int)

  /** The ring and, for the proofs, all bytes stored in it and read from it so far. */
  datatype Bytes = Bytes(ring: Ring, stored: seq<byte>, got: seq<byte>)

  /** `rref` and `wref`: some process has the end open and nobody has begun the last close. */
  datatype Ends = Ends(readopen: bool, writeopen: bool, rref: bool, wref: bool)

  /** `holder` and `table`: who has the pipe lock and the table lock, or -1. */
  datatype State = State(b: Bytes, e: Ends, holder: int, table: int, procs: seq<Proc>)

  // ---- The steps

  predicate Within(pc: Pc, op: Op) {
    match pc
    case Idle => false
    case Copy => op == Read
    case Wake => op == Write
    case Enter(o) => o == op
    case Top(o) => o == op
    case Sleep0(o) => o == op
    case Sleep1(o) => o == op
    case Sleep2(o) => o == op
    case Asleep(o) => o == op
    case End(o) => o == op
    case Leave(o) => o == op
  }

  predicate Locked(pc: Pc) {
    pc.Top? || pc.Copy? || pc.Wake? || pc.Sleep0? || pc.Sleep1? || pc.End? || pc.Leave?
  }

  predicate Tabled(pc: Pc) { pc.Sleep1? || pc.Sleep2? }

  predicate Nobody(s: State, op: Op) { forall q :: 0 <= q < |s.procs| ==> !Within(s.procs[q].pc, op) }

  function Goto(s: State, p: nat, pc: Pc): State
    requires p < |s.procs|
  {
    s.(procs := s.procs[p := s.procs[p].(pc := pc)])
  }

  /** On the way to the return of `r`. */
  function Return(s: State, p: nat, pc: Pc, r: int): State
    requires p < |s.procs|
  {
    s.(procs := s.procs[p := s.procs[p].(pc := pc, ret := r)])
  }

  /** A process calls one of the three functions. An end is closed only by the last descriptor
      for it, so with nobody inside an operation on that end. */
  predicate Begin(s: State, t: State, p: nat, op: Op, buf: seq<byte>) {
    && p < |s.procs| && s.procs[p].pc.Idle?
    && (op in {Write, CloseWrite} ==> s.e.wref) && (op in {Read, CloseRead} ==> s.e.rref)
    && (op == CloseWrite ==> Nobody(s, Write)) && (op == CloseRead ==> Nobody(s, Read))
    && t == s.(procs := s.procs[p := s.procs[p].(pc := Enter(op), buf := buf, i := 0, ret := 0)],
               e := s.e.(wref := s.e.wref && op != CloseWrite, rref := s.e.rref && op != CloseRead))
  }

  /** kill also wakes its target. */
  predicate Kill(s: State, t: State, p: nat) {
    && p < |s.procs| && s.table == -1
    && var x := s.procs[p];
       t == s.(procs := s.procs[p := x.(killed := true, pc := if x.pc.Asleep? then Enter(x.pc.op) else x.pc)])
  }

  /** wakeup on the channel of the readers, or of the writers. */
  function Awaken(procs: seq<Proc>, op: Op): (r: seq<Proc>)
    ensures |r| == |procs|
    ensures forall q :: 0 <= q < |procs| ==>
              r[q] == if procs[q].pc == Asleep(op) then procs[q].(pc := Enter(op)) else procs[q]
  {
    if procs == [] then []
    else Awaken(procs[..|procs| - 1], op) +
         [var x := procs[|procs| - 1]; if x.pc == Asleep(op) then x.(pc := Enter(op)) else x]
  }

  /** Whom the wakeup of an operation is for. */
  function Wakes(op: Op): Op { if op in {Write, CloseWrite} then Read else Write }

  /** wakeup for `op`'s other side, then on to `pc`. */
  function WakeAndGo(s: State, p: nat, op: Op, pc: Pc): State
    requires p < |s.procs|
  {
    s.(procs := Awaken(Goto(s, p, pc).procs, op))
  }

  function WriteStep(s: State, p: nat): State
    requires p < |s.procs| && |s.b.ring.data| == PIPESIZE
  {
    var w := s.procs[p];
    if w.i >= |w.buf| then Return(s, p, End(Write), |w.buf|)
    else if Full(s.b.ring) then
      if !s.e.readopen || w.killed then Return(s, p, Leave(Write), -1) else Goto(s, p, Wake)
    else State(Bytes(Put(s.b.ring, w.buf[w.i]), s.b.stored + [w.buf[w.i]], s.b.got), s.e, s.holder, s.table,
               s.procs[p := w.(i := w.i + 1)])
  }

  function ReadTest(s: State, p: nat): State
    requires p < |s.procs|
  {
    if !(Empty(s.b.ring) && s.e.writeopen) then Goto(s, p, Copy)
    else if s.procs[p].killed then Return(s, p, Leave(Read), -1) else Goto(s, p, Sleep0(Read))
  }

  function CopyStep(s: State, p: nat): State
    requires p < |s.procs| && |s.b.ring.data| == PIPESIZE
  {
    var r := s.procs[p];
    if r.i >= |r.buf| || Empty(s.b.ring) then Return(s, p, End(Read), r.i)
    else State(Bytes(Drop(s.b.ring), s.b.stored, s.b.got + [Front(s.b.ring)]), s.e, s.holder, s.table,
               s.procs[p := r.(buf := r.buf[r.i := Front(s.b.ring)], i := r.i + 1)])
  }

  function CloseStep(s: State, p: nat, op: Op): State
    requires p < |s.procs|
  {
    Goto(s, p, End(op)).(e := s.e.(writeopen := s.e.writeopen && op != CloseWrite,
                                   readopen := s.e.readopen && op != CloseRead))
  }

  predicate Enabled(s: State, p: nat) {
    && p < |s.procs| && |s.b.ring.data| == PIPESIZE
    && match s.procs[p].pc
       case Enter(_) => s.holder == -1
       case Wake => s.table == -1
       case End(_) => s.table == -1
       case Sleep0(_) => s.table == -1
       case Idle => false
       case Asleep(_) => false
       case _ => true
  }

  /** What process `p` does next. */
  function Act(s: State, p: nat): State
    requires Enabled(s, p)
  {
    match s.procs[p].pc
    case Enter(op) => Goto(s, p, Top(op)).(holder := p)
    case Top(op) =>
      (if op == Write then WriteStep(s, p) else if op == Read then ReadTest(s, p) else CloseStep(s, p, op))
    case Copy => CopyStep(s, p)
    case Wake => WakeAndGo(s, p, Read, Sleep0(Write))
    case Sleep0(op) => Goto(s, p, Sleep1(op)).(table := p)
    case Sleep1(op) => Goto(s, p, Sleep2(op)).(holder := -1)
    case Sleep2(op) => Goto(s, p, Asleep(op)).(table := -1)
    case End(op) => WakeAndGo(s, p, Wakes(op), Leave(op))
    case Leave(op) => Goto(s, p, Idle).(holder := -1)
    case Idle => s
    case Asleep(_) => s
  }

  ghost predicate Step(s: State, t: State, p: nat) {
    (Enabled(s, p) && t == Act(s, p)) || (exists op, buf :: Begin(s, t, p, op, buf)) || Kill(s, t, p)
  }

  ghost predicate Next(s: State, t: State) { exists p :: Step(s, t, p) }

  predicate Init(s: State) {
    && |s.b.ring.data| == PIPESIZE && s.b.ring.nread == s.b.ring.nwrite == 0 && s.b.stored == s.b.got == []
    && s.e == Ends(true, true, true, true) && s.holder == s.table == -1
    && forall p :: 0 <= p < |s.procs| ==> s.procs[p].pc == Idle && !s.procs[p].killed
  }

  ghost predicate Run(run: seq<State>) {
    && |run| > 0 && Init(run[0])
    && forall i {:trigger Next(run[i], run[i + 1])} :: 0 <= i < |run| - 1 ==> Next(run[i], run[i + 1])
  }

  // ---- First in, first out

  ghost predicate Fifo(b: Bytes) {
    |b.got| <= |b.stored| && b.got == b.stored[..|b.got|] && Holds(b.ring, b.stored, |b.got|)
  }

  lemma FifoStep(s: State, t: State, p: nat)
    requires Fifo(s.b) && Step(s, t, p)
    ensures Fifo(t.b)
  {
    hide Holds, Put, Drop, Front, Awaken, Full, Empty;
    if Enabled(s, p) && t == Act(s, p) {
      var x := s.procs[p];
      if x.pc == Top(Write) && x.i < |x.buf| && !Full(s.b.ring) {
        PutHolds(s.b.ring, s.b.stored, |s.b.got|, x.buf[x.i]);
      } else if x.pc == Copy && x.i < |x.buf| && !Empty(s.b.ring) {
        DropHolds(s.b.ring, s.b.stored, |s.b.got|);
      } else {
        assert t.b == s.b;
      }
    }
  }

  /** In every run, kills or not: the bytes read are a prefix of the bytes written, and the rest,
      never more than PIPESIZE of them, is what the ring holds. */
  lemma {:induction false} PipeIsFifo(run: seq<State>, i: nat)
    requires Run(run) && i < |run|
    ensures Fifo(run[i].b)
  {
    if i > 0 {
      PipeIsFifo(run, i - 1);
      var j := i - 1;
      assert Next(run[j], run[j + 1]);
      var p :| Step(run[j], run[i], p);
      FifoStep(run[j], run[i], p);
    }
  }

  // ---- No lost wakeup

  /** Asleep for data or for room, or past the point of no return. */
  predicate Sleepy(pc: Pc, op: Op) { pc == Sleep2(op) || pc == Asleep(op) }

  /** The process will wake the sleepers of `op` before it gives back the pipe lock. */
  predicate WillWake(pc: Pc, op: Op) {
    if op == Read then pc == Top(Write) || pc == Wake || pc == End(Write) || pc == End(CloseWrite)
    else pc == Copy || pc == End(Read) || pc == End(CloseRead)
  }

  predicate WakerAtWork(s: State, op: Op) {
    0 <= s.holder < |s.procs| && WillWake(s.procs[s.holder].pc, op)
  }

  /** Why a reader or a writer may sleep. */
  predicate MustWait(s: State, op: Op) {
    if op == Read then Empty(s.b.ring) && s.e.writeopen else Full(s.b.ring) && s.e.readopen
  }

  ghost predicate ProcOk(s: State, p: nat)
    requires p < |s.procs|
  {
    var pc := s.procs[p].pc;
    && (Locked(pc) <==> s.holder == p) && (Tabled(pc) <==> s.table == p)
    && (Within(pc, Write) ==> s.e.wref) && (Within(pc, Read) ==> s.e.rref)
    && (Within(pc, CloseWrite) ==> !s.e.wref) && (Within(pc, CloseRead) ==> !s.e.rref)
    && (pc == Wake ==> MustWait(s, Write))
    && (forall op :: pc == Sleep0(op) || pc == Sleep1(op) ==> op in {Read, Write} && MustWait(s, op))
    && (forall op :: Sleepy(pc, op) ==> op in {Read, Write} && (MustWait(s, op) || WakerAtWork(s, op)))
  }

  ghost predicate Inv(s: State) {
    && -1 <= s.holder < |s.procs| && -1 <= s.table < |s.procs|
    && (s.e.wref ==> s.e.writeopen) && (s.e.rref ==> s.e.readopen)
    && forall p :: 0 <= p < |s.procs| ==> ProcOk(s, p)
  }

  /** The promise to those who sleep, whenever the pipe lock is free. */
  ghost predicate NobodySleepsInVain(s: State) {
    s.holder == -1 ==>
      forall p :: 0 <= p < |s.procs| && s.procs[p].pc.Asleep? ==>
        s.procs[p].pc.op in {Read, Write} && MustWait(s, s.procs[p].pc.op)
  }

  /** A killed writer gives up on a full pipe while a reader sleeps. */
  ghost predicate LostWakeup(s: State, t: State, p: nat) {
    && Enabled(s, p) && t == Act(s, p) && s.procs[p].pc == Top(Write) && s.procs[p].i < |s.procs[p].buf|
    && Full(s.b.ring) && s.procs[p].killed
    && exists q :: 0 <= q < |s.procs| && Sleepy(s.procs[q].pc, Read)
  }

  lemma BeginKeeps(s: State, t: State, p: nat, op: Op, buf: seq<byte>)
    requires Inv(s) && Begin(s, t, p, op, buf)
    ensures Inv(t)
  {
    forall q | 0 <= q < |t.procs| ensures ProcOk(t, q) { assert ProcOk(s, q) && ProcOk(s, p); }
  }

  lemma KillKeeps(s: State, t: State, p: nat)
    requires Inv(s) && Kill(s, t, p)
    ensures Inv(t)
  {
    forall q | 0 <= q < |t.procs| ensures ProcOk(t, q) { assert ProcOk(s, q) && ProcOk(s, p); }
  }

  lemma EnterKeeps(s: State, p: nat)
    requires Inv(s) && Enabled(s, p) && s.procs[p].pc.Enter?
    ensures Inv(Act(s, p))
  {
    var t := Act(s, p);
    forall q | 0 <= q < |t.procs| ensures ProcOk(t, q) { assert ProcOk(s, q) && ProcOk(s, p); }
  }

  lemma LeaveKeeps(s: State, p: nat)
    requires Inv(s) && Enabled(s, p) && s.procs[p].pc.Leave?
    ensures Inv(Act(s, p))
  {
    var t := Act(s, p);
    forall q | 0 <= q < |t.procs| ensures ProcOk(t, q) { assert ProcOk(s, q) && ProcOk(s, p); }
  }

  lemma TableKeeps(s: State, p: nat)
    requires Inv(s) && Enabled(s, p) && s.procs[p].pc.Sleep0?
    ensures Inv(Act(s, p))
  {
    var t := Act(s, p);
    forall q | 0 <= q < |t.procs| ensures ProcOk(t, q) { assert ProcOk(s, q) && ProcOk(s, p); }
  }

  lemma SleepKeeps(s: State, p: nat)
    requires Inv(s) && Enabled(s, p) && s.procs[p].pc.Sleep2?
    ensures Inv(Act(s, p))
  {
    var t := Act(s, p);
    assert ProcOk(s, p) && Sleepy(s.procs[p].pc, s.procs[p].pc.op);
    forall q | 0 <= q < |t.procs| ensures ProcOk(t, q) { assert ProcOk(s, q); }
  }

  lemma UnlockKeeps(s: State, p: nat)
    requires Inv(s) && Enabled(s, p) && s.procs[p].pc.Sleep1?
    ensures Inv(Act(s, p))
  {
    var t := Act(s, p);
    forall q | 0 <= q < |t.procs| ensures ProcOk(t, q) { assert ProcOk(s, q) && ProcOk(s, p); }
  }

  lemma WakeKeeps(s: State, p: nat)
    requires Inv(s) && Enabled(s, p) && s.procs[p].pc.Wake?
    ensures Inv(Act(s, p))
  {
    var t := Act(s, p);
    forall q | 0 <= q < |t.procs| ensures ProcOk(t, q) { assert ProcOk(s, q) && ProcOk(s, p); }
  }

  lemma EndKeeps(s: State, p: nat)
    requires Inv(s) && Enabled(s, p) && s.procs[p].pc.End?
    ensures Inv(Act(s, p))
  {
    var t := Act(s, p);
    forall q | 0 <= q < |t.procs| ensures ProcOk(t, q) { assert ProcOk(s, q) && ProcOk(s, p); }
  }

  lemma ReadKeeps(s: State, p: nat)
    requires Inv(s) && Enabled(s, p)
    requires s.procs[p].pc == Top(Read) || s.procs[p].pc == Copy
    ensures Inv(Act(s, p))
  {
    var t := Act(s, p);
    forall q | 0 <= q < |t.procs| ensures ProcOk(t, q) { assert ProcOk(s, q) && ProcOk(s, p); }
  }

  lemma CloseKeeps(s: State, p: nat, op: Op)
    requires Inv(s) && Enabled(s, p) && op in {CloseRead, CloseWrite} && s.procs[p].pc == Top(op)
    ensures Inv(Act(s, p))
  {
    var t := Act(s, p);
    assert ProcOk(s, p);
    forall q | 0 <= q < |t.procs| ensures ProcOk(t, q) { assert ProcOk(s, q) && ProcOk(s, p); }
  }

  lemma WriteKeeps(s: State, p: nat)
    requires Inv(s) && Enabled(s, p) && s.procs[p].pc == Top(Write) && !LostWakeup(s, Act(s, p), p)
    ensures Inv(Act(s, p))
  {
    var t := Act(s, p);
    forall q | 0 <= q < |t.procs| ensures ProcOk(t, q) { assert ProcOk(s, q) && ProcOk(s, p); }
  }

  lemma ActKeeps(s: State, p: nat)
    requires Inv(s) && Enabled(s, p) && !LostWakeup(s, Act(s, p), p)
    ensures Inv(Act(s, p))
  {
    match s.procs[p].pc
    case Enter(_) => EnterKeeps(s, p);
    case Top(op) =>
      if op == Write { WriteKeeps(s, p); } else if op == Read { ReadKeeps(s, p); } else { CloseKeeps(s, p, op); }
    case Copy => ReadKeeps(s, p);
    case Wake => WakeKeeps(s, p);
    case Sleep0(_) => TableKeeps(s, p);
    case Sleep1(_) => UnlockKeeps(s, p);
    case Sleep2(_) => SleepKeeps(s, p);
    case End(_) => EndKeeps(s, p);
    case Leave(_) => LeaveKeeps(s, p);
    case Idle =>
    case Asleep(_) =>
  }

  lemma LostBreaks(s: State, t: State, p: nat)
    requires Inv(s) && Fifo(s.b) && LostWakeup(s, t, p)
    ensures !Inv(t)
  {
    FillLevel(s.b.ring, s.b.stored, |s.b.got|);
    var q :| 0 <= q < |s.procs| && Sleepy(s.procs[q].pc, Read);
    assert ProcOk(s, p) && !MustWait(t, Read) && !WakerAtWork(t, Read);
    assert Sleepy(t.procs[q].pc, Read);
    assert !ProcOk(t, q);
  }

  /** Every step keeps the promise to the sleepers, except exactly one: the killed return of
      pipewrite from a full pipe while a reader sleeps. */
  lemma StepKeepsExactly(s: State, t: State, p: nat)
    requires Inv(s) && Fifo(s.b) && Step(s, t, p)
    ensures Inv(t) <==> !LostWakeup(s, t, p)
  {
    hide Inv, Fifo, LostWakeup, Act, Begin, Kill;
    if LostWakeup(s, t, p) {
      LostBreaks(s, t, p);
    } else if Enabled(s, p) && t == Act(s, p) {
      ActKeeps(s, p);
    } else if Kill(s, t, p) {
      KillKeeps(s, t, p);
    } else {
      var op, buf :| Begin(s, t, p, op, buf);
      BeginKeeps(s, t, p, op, buf);
    }
  }

  ghost predicate SomeLost(s: State, t: State) { exists p :: LostWakeup(s, t, p) }

  /** No killed writer has given up on a sleeping reader before state `i`. */
  ghost predicate NoneLost(run: seq<State>, i: nat)
    requires i < |run|
  {
    forall j {:trigger SomeLost(run[j], run[j + 1])} :: 0 <= j < i ==> !SomeLost(run[j], run[j + 1])
  }

  lemma {:induction false} RunKeeps(run: seq<State>, i: nat)
    requires Run(run) && i < |run| && NoneLost(run, i)
    ensures Inv(run[i])
  {
    hide LostWakeup, Step;
    if i == 0 {
      forall p | 0 <= p < |run[0].procs| ensures ProcOk(run[0], p) { }
    } else {
      var j := i - 1;
      RunKeeps(run, j);
      PipeIsFifo(run, j);
      assert Next(run[j], run[j + 1]);
      var p :| Step(run[j], run[i], p);
      assert !SomeLost(run[j], run[j + 1]);
      StepKeepsExactly(run[j], run[i], p);
    }
  }

  /** Whenever the pipe lock is free, a sleeping reader means an empty pipe whose write end is
      open and a sleeping writer a full pipe whose read end is open. */
  lemma SleepersAreRight(run: seq<State>, i: nat)
    requires Run(run) && i < |run| && NoneLost(run, i)
    ensures NobodySleepsInVain(run[i])
  {
    RunKeeps(run, i);
    var s := run[i];
    if s.holder == -1 {
      forall p | 0 <= p < |s.procs| && s.procs[p].pc.Asleep?
        ensures s.procs[p].pc.op in {Read, Write} && MustWait(s, s.procs[p].pc.op)
      {
        assert ProcOk(s, p) && Sleepy(s.procs[p].pc, s.procs[p].pc.op);
      }
    }
  }

  ghost predicate NobodyKilled(s: State) { forall p :: 0 <= p < |s.procs| ==> !s.procs[p].killed }

  /** Runs in which nobody is killed. */
  lemma WithoutKill(run: seq<State>, i: nat)
    requires Run(run) && i < |run| && forall j :: 0 <= j < i ==> NobodyKilled(run[j])
    ensures NobodySleepsInVain(run[i])
  {
    forall j | 0 <= j < i ensures !SomeLost(run[j], run[j + 1]) { assert NobodyKilled(run[j]); }
    SleepersAreRight(run, i);
  }

  // ---- The killed return loses a wakeup

  lemma Extend(run: seq<State>, t: State, p: nat)
    requires Run(run) && Step(run[|run| - 1], t, p)
    ensures Run(run + [t])
  {
    var r := run + [t];
    assert Next(run[|run| - 1], t);
    forall i | 0 <= i < |r| - 1 ensures Next(r[i], r[i + 1]) {
      if i < |run| - 1 { assert Next(run[i], run[i + 1]); }
    }
  }

  function Fresh(): State {
    State(Bytes(Ring(Zeros(PIPESIZE), 0, 0), [], []), Ends(true, true, true, true), -1, -1,
          [Proc(Idle, [], 0, false, 0), Proc(Idle, [], 0, false, 0)])
  }

  /** Process 0 sleeps in piperead; process 1 has stored `k` of its 513 bytes. */
  function Filling(k: nat): State
    requires k <= PIPESIZE
  {
    State(Bytes(Ring(Zeros(PIPESIZE), 0, k), Zeros(k), []), Ends(true, true, true, true), 1, -1,
          [Proc(Asleep(Read), [0], 0, false, 0), Proc(Top(Write), Zeros(PIPESIZE + 1), k, false, 0)])
  }

  lemma FiveSteps(run: seq<State>, a: State, b: State, c: State, d: State, e: State, p: nat)
    requires Run(run) && Step(run[|run| - 1], a, p) && Step(a, b, p) && Step(b, c, p) && Step(c, d, p) && Step(d, e, p)
    ensures Run(run + [a] + [b] + [c] + [d] + [e])
  {
    hide Step;
    Extend(run, a, p);
    Extend(run + [a], b, p);
    Extend(run + [a] + [b], c, p);
    Extend(run + [a] + [b] + [c], d, p);
    Extend(run + [a] + [b] + [c] + [d], e, p);
  }

  lemma ReaderSleeps() returns (run: seq<State>)
    ensures Run(run)
    ensures run[|run| - 1] == Fresh().(procs := [Proc(Asleep(Read), [0], 0, false, 0), Proc(Idle, [], 0, false, 0)])
  {
    var s := Fresh();
    var t := s.(procs := s.procs[0 := Proc(Enter(Read), [0], 0, false, 0)]);
    assert Begin(s, t, 0, Read, [0]);
    Extend([s], t, 0);
    run := [s, t];
    assert run == [s] + [t];
    var a := Act(t, 0);
    var b := Act(a, 0);
    var c := Act(b, 0);
    var d := Act(c, 0);
    var e := Act(d, 0);
    FiveSteps(run, a, b, c, d, e, 0);
    run := run + [a] + [b] + [c] + [d] + [e];
  }

  lemma {:induction false} FillingReached(k: nat) returns (run: seq<State>)
    requires k <= PIPESIZE
    ensures Run(run) && run[|run| - 1] == Filling(k)
  {
    if k == 0 {
      run := ReaderSleeps();
      var s := run[|run| - 1];
      var t := s.(procs := s.procs[1 := Proc(Enter(Write), Zeros(PIPESIZE + 1), 0, false, 0)]);
      assert Begin(s, t, 1, Write, Zeros(PIPESIZE + 1));
      Extend(run, t, 1);
      Extend(run + [t], Act(t, 1), 1);
      run := run + [t] + [Act(t, 1)];
      assert Act(t, 1).procs == Filling(0).procs;
    } else {
      run := FillingReached(k - 1);
      var s, t := Filling(k - 1), Filling(k);
      assert Zeros(PIPESIZE)[k - 1 := 0] == Zeros(PIPESIZE);
      assert Zeros(k) == Zeros(k - 1) + [0];
      assert !Full(s.b.ring) && Put(s.b.ring, 0) == t.b.ring;
      assert Act(s, 1) == t by { assert Act(s, 1).procs == t.procs; }
      Extend(run, t, 1);
      run := run + [t];
    }
  }

  /** With one kill the promise does fail: a run after which the pipe lock is free, the pipe is
      full and a reader sleeps. */
  lemma KilledReturnLosesWakeup() returns (run: seq<State>)
    ensures Run(run) && !NobodySleepsInVain(run[|run| - 1])
    ensures var s := run[|run| - 1]; s.holder == -1 && Full(s.b.ring) && s.procs[0].pc == Asleep(Read)
  {
    run := FillingReached(PIPESIZE);
    var s := Filling(PIPESIZE);
    var t := s.(procs := s.procs[1 := s.procs[1].(killed := true)]);
    assert Kill(s, t, 1);
    Extend(run, t, 1);
    run := run + [t];
    assert Full(t.b.ring);
    var u := Act(t, 1);
    Extend(run, u, 1);
    run := run + [u];
    var v := Act(u, 1);
    Extend(run, v, 1);
    run := run + [v];
    assert v.procs[0].pc.Asleep? && !MustWait(v, v.procs[0].pc.op);
  }
}
