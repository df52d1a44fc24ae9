/** Group commit: any number of processes inside begin_op, log_write and end_op.

    A step is one section under log.lock. log_write reads the list length before it takes
    the lock, so its guard and its body are two steps. Each operation appends at most
    MAXOPBLOCKS blocks of its own; this is what the callers owe the log. */
module LogGroup {
  import opened Collections
  import opened LogSpec

  datatype Op =
    | Out                                   // not in an operation, or entering begin_op
    | Asleep                                // sleeping in begin_op
    | Running(used: nat, passed: bool)      // between begin_op and end_op; `passed`: log_write's guard succeeded
    | Committing                            // in commit(), without the lock

  datatype State = State(lh: seq<nat>, outstanding: nat, committing: bool, ops: seq<Op>)

  // ---- The steps

  /** The guard at the top of log_write, read without the lock. */
  predicate GuardOk(size: nat, s: State) {
    |s.lh| < LOGSIZE && |s.lh| < size - 1 && s.outstanding >= 1
  }

  /** begin_op may go ahead. */
  predicate Admits(s: State) {
    !s.committing && |s.lh| + (s.outstanding + 1) * MAXOPBLOCKS <= LOGSIZE
  }

  function Wake(ops: seq<Op>): (r: seq<Op>)
    ensures |r| == |ops|
    ensures forall i :: 0 <= i < |ops| ==> r[i] == if ops[i].Asleep? then Out else ops[i]
  {
    if ops == [] then [] else [if ops[0].Asleep? then Out else ops[0]] + Wake(ops[1..])
  }

  predicate Init(s: State) {
    && s.lh == [] && s.outstanding == 0 && !s.committing
    && forall i :: 0 <= i < |s.ops| ==> s.ops[i].Out?
  }

  predicate BeginWait(s: State, t: State, p: nat) {
    p < |s.ops| && s.ops[p].Out? && !Admits(s) && t == s.(ops := s.ops[p := Asleep])
  }

  predicate BeginGo(s: State, t: State, p: nat) {
    && p < |s.ops| && s.ops[p].Out? && Admits(s)
    && t == s.(outstanding := s.outstanding + 1, ops := s.ops[p := Running(0, false)])
  }

  predicate Guard(size: nat, s: State, t: State, p: nat) {
    && p < |s.ops| && s.ops[p].Running? && !s.ops[p].passed && GuardOk(size, s)
    && t == s.(ops := s.ops[p := s.ops[p].(passed := true)])
  }

  /** The locked body of log_write: absorb a block already listed, or append it. */
  predicate LogBlock(s: State, t: State, p: nat, b: nat) {
    && p < |s.ops| && s.ops[p].Running? && s.ops[p].passed
    && if b in s.lh then t == s.(ops := s.ops[p := s.ops[p].(passed := false)])
       else && s.ops[p].used < MAXOPBLOCKS
            && t == s.(lh := s.lh + [b], ops := s.ops[p := Running(s.ops[p].used + 1, false)])
  }

  predicate EndMore(s: State, t: State, p: nat) {
    && p < |s.ops| && s.ops[p].Running? && !s.ops[p].passed && s.outstanding > 1
    && t == s.(outstanding := s.outstanding - 1, ops := Wake(s.ops[p := Out]))
  }

  predicate EndLast(s: State, t: State, p: nat) {
    && p < |s.ops| && s.ops[p].Running? && !s.ops[p].passed && s.outstanding == 1
    && t == s.(outstanding := 0, committing := true, ops := s.ops[p := Committing])
  }

  /** commit() has emptied the list. */
  predicate CommitBody(s: State, t: State, p: nat) {
    p < |s.ops| && s.ops[p].Committing? && t == s.(lh := [])
  }

  predicate CommitDone(s: State, t: State, p: nat) {
    && p < |s.ops| && s.ops[p].Committing? && s.lh == []
    && t == s.(committing := false, ops := Wake(s.ops[p := Out]))
  }

  ghost predicate Step(size: nat, s: State, t: State, p: nat) {
    || BeginWait(s, t, p) || BeginGo(s, t, p) || Guard(size, s, t, p) || (exists b :: LogBlock(s, t, p, b))
    || EndMore(s, t, p) || EndLast(s, t, p) || CommitBody(s, t, p) || CommitDone(s, t, p)
  }

  ghost predicate Next(size: nat, s: State, t: State) {
    exists p :: Step(size, s, t, p)
  }

  /** A run of `n` processes over a log of `size` blocks. */
  ghost predicate Run(size: nat, n: nat, run: seq<State>) {
    && |run| > 0 && Init(run[0]) && |run[0].ops| == n
    && forall i {:trigger Next(size, run[i], run[i + 1])} :: 0 <= i < |run| - 1 ==> Next(size, run[i], run[i + 1])
  }

  ghost predicate Reaches(size: nat, n: nat, run: seq<State>, s: State) {
    Run(size, n, run) && run[|run| - 1] == s
  }

  // ---- The invariant

  function Count(ops: seq<Op>): nat {
    if ops == [] then 0 else Count(ops[..|ops| - 1]) + if ops[|ops| - 1].Running? then 1 else 0
  }

  function CommitCount(ops: seq<Op>): nat {
    if ops == [] then 0 else CommitCount(ops[..|ops| - 1]) + if ops[|ops| - 1].Committing? then 1 else 0
  }

  function Left(op: Op): nat {
    if op.Running? && op.used <= MAXOPBLOCKS then MAXOPBLOCKS - op.used else 0
  }

  /** The reservations of the running operations that are not used up. */
  function Unused(ops: seq<Op>): nat {
    if ops == [] then 0 else Unused(ops[..|ops| - 1]) + Left(ops[|ops| - 1])
  }

  ghost predicate Inv(s: State) {
    && s.outstanding == Count(s.ops)
    && CommitCount(s.ops) == (if s.committing then 1 else 0)
    && (s.committing ==> s.outstanding == 0)
    && (!s.committing && s.outstanding == 0 ==> s.lh == [])
    && Distinct(s.lh)
    && (forall i :: 0 <= i < |s.ops| && s.ops[i].Running? ==> s.ops[i].used <= MAXOPBLOCKS)
    && (!s.committing ==> |s.lh| + Unused(s.ops) <= LOGSIZE)
    && |s.lh| <= LOGSIZE
    && (forall i :: 0 <= i < |s.ops| && s.ops[i].Asleep? ==> s.committing || (s.outstanding > 0 && !Admits(s)))
  }

  lemma {:induction false} SumsAfter(ops: seq<Op>, p: nat, op: Op)
    requires p < |ops|
    ensures Count(ops[p := op]) == Count(ops) - (if ops[p].Running? then 1 else 0) + (if op.Running? then 1 else 0)
    ensures CommitCount(ops[p := op]) ==
            CommitCount(ops) - (if ops[p].Committing? then 1 else 0) + (if op.Committing? then 1 else 0)
    ensures Unused(ops[p := op]) == Unused(ops) - Left(ops[p]) + Left(op)
  {
    var n := |ops| - 1;
    if p < n {
      SumsAfter(ops[..n], p, op);
      assert ops[p := op][..n] == ops[..n][p := op];
    } else {
      assert ops[p := op][..n] == ops[..n];
    }
  }

  lemma {:induction false} SumsAfterWake(ops: seq<Op>)
    ensures Count(Wake(ops)) == Count(ops) && CommitCount(Wake(ops)) == CommitCount(ops)
    ensures Unused(Wake(ops)) == Unused(ops)
  {
    if ops != [] {
      var n := |ops| - 1;
      SumsAfterWake(ops[..n]);
      assert Wake(ops)[..n] == Wake(ops[..n]);
    }
  }

  lemma {:induction false} SumsNone(ops: seq<Op>)
    requires forall i :: 0 <= i < |ops| ==> ops[i].Out?
    ensures Count(ops) == 0 && CommitCount(ops) == 0 && Unused(ops) == 0
  {
    if ops != [] { SumsNone(ops[..|ops| - 1]); }
  }

  lemma {:induction false} UnusedBound(ops: seq<Op>)
    ensures Unused(ops) <= MAXOPBLOCKS * Count(ops)
  {
    if ops != [] { UnusedBound(ops[..|ops| - 1]); }
  }

  lemma {:induction false} SumsAtLeast(ops: seq<Op>, p: nat)
    requires p < |ops|
    ensures ops[p].Running? ==> Count(ops) >= 1 && Unused(ops) >= Left(ops[p])
    ensures ops[p].Committing? ==> CommitCount(ops) >= 1
  {
    if p < |ops| - 1 { SumsAtLeast(ops[..|ops| - 1], p); }
  }

  // ---- Every step keeps it

  lemma BeginKeeps(s: State, t: State, p: nat)
    requires Inv(s) && (BeginWait(s, t, p) || BeginGo(s, t, p))
    ensures Inv(t)
  {
    SumsAfter(s.ops, p, if BeginWait(s, t, p) then Asleep else Running(0, false));
    UnusedBound(s.ops);
  }

  lemma LogWriteKeeps(size: nat, s: State, t: State, p: nat, b: nat)
    requires Inv(s) && (Guard(size, s, t, p) || LogBlock(s, t, p, b))
    ensures Inv(t)
  {
    SumsAfter(s.ops, p, t.ops[p]);
    SumsAtLeast(s.ops, p);
  }

  lemma EndMoreKeeps(s: State, t: State, p: nat)
    requires Inv(s) && EndMore(s, t, p)
    ensures Inv(t)
  {
    SumsAtLeast(s.ops, p);
    SumsAfter(s.ops, p, Out);
    SumsAfterWake(s.ops[p := Out]);
  }

  lemma EndLastKeeps(s: State, t: State, p: nat)
    requires Inv(s) && EndLast(s, t, p)
    ensures Inv(t)
  {
    SumsAtLeast(s.ops, p);
    SumsAfter(s.ops, p, Committing);
  }

  lemma CommitBodyKeeps(s: State, t: State, p: nat)
    requires Inv(s) && CommitBody(s, t, p)
    ensures Inv(t)
  {
    SumsAtLeast(s.ops, p);
  }

  lemma CommitDoneKeeps(s: State, t: State, p: nat)
    requires Inv(s) && CommitDone(s, t, p)
    ensures Inv(t)
  {
    SumsAtLeast(s.ops, p);
    SumsAfter(s.ops, p, Out);
    SumsAfterWake(s.ops[p := Out]);
    UnusedBound(t.ops);
  }

  lemma StepKeeps(size: nat, s: State, t: State, p: nat)
    requires Inv(s) && Step(size, s, t, p)
    ensures Inv(t) && |t.ops| == |s.ops|
  {
    if BeginWait(s, t, p) || BeginGo(s, t, p) { BeginKeeps(s, t, p); }
    else if Guard(size, s, t, p) { LogWriteKeeps(size, s, t, p, 0); }
    else if EndMore(s, t, p) { EndMoreKeeps(s, t, p); }
    else if EndLast(s, t, p) { EndLastKeeps(s, t, p); }
    else if CommitBody(s, t, p) { CommitBodyKeeps(s, t, p); }
    else if CommitDone(s, t, p) { CommitDoneKeeps(s, t, p); }
    else {
      var b :| LogBlock(s, t, p, b);
      LogWriteKeeps(size, s, t, p, b);
    }
  }

  lemma {:induction false} RunKeeps(size: nat, n: nat, run: seq<State>, i: nat)
    requires Run(size, n, run) && i < |run|
    ensures Inv(run[i]) && |run[i].ops| == n
  {
    if i == 0 {
      SumsNone(run[0].ops);
    } else {
      RunKeeps(size, n, run, i - 1);
      var j := i - 1;
      assert Next(size, run[j], run[j + 1]);
      var p :| Step(size, run[i - 1], run[i], p);
      StepKeeps(size, run[i - 1], run[i], p);
    }
  }

  // ---- What it means

  lemma {:induction false} SomeRunning(ops: seq<Op>) returns (p: nat)
    requires Count(ops) > 0
    ensures p < |ops| && ops[p].Running?
  {
    p := |ops| - 1;
    if !ops[p].Running? { p := SomeRunning(ops[..p]); }
  }

  lemma {:induction false} SomeCommitting(ops: seq<Op>) returns (p: nat)
    requires CommitCount(ops) > 0
    ensures p < |ops| && ops[p].Committing?
  {
    p := |ops| - 1;
    if !ops[p].Committing? { p := SomeCommitting(ops[..p]); }
  }

  /** In every state of every run: while a commit is under way no operation is (so neither
      end_op's panic nor log_write's second panic can happen, and a commit holds whole
      operations only), the list has no duplicates, it fits its array together with all
      reservations, and whoever sleeps in begin_op has someone left to wake it. */
  lemma GroupCommit(size: nat, n: nat, run: seq<State>, i: nat)
    requires Run(size, n, run) && i < |run|
    ensures
      var s := run[i];
      && |s.ops| == n && s.outstanding == Count(s.ops)
      && (forall p :: 0 <= p < n && s.ops[p].Running? ==> !s.committing && s.outstanding >= 1)
      && (s.committing ==> s.outstanding == 0)
      && Distinct(s.lh) && |s.lh| <= LOGSIZE
      && (!s.committing ==> |s.lh| + Unused(s.ops) <= LOGSIZE)
      && (forall p :: 0 <= p < n && s.ops[p].Asleep? ==>
            exists q :: 0 <= q < n && (s.ops[q].Running? || s.ops[q].Committing?))
  {
    var s := run[i];
    RunKeeps(size, n, run, i);
    forall p | 0 <= p < n && s.ops[p].Running? ensures !s.committing && s.outstanding >= 1 {
      SumsAtLeast(s.ops, p);
    }
    forall p | 0 <= p < n && s.ops[p].Asleep?
      ensures exists q :: 0 <= q < n && (s.ops[q].Running? || s.ops[q].Committing?)
    {
      if s.committing {
        var q := SomeCommitting(s.ops);
      } else {
        var q := SomeRunning(s.ops);
      }
    }
  }

  // ---- Every log_write reads the guard afresh

  lemma PassedStep(size: nat, s: State, t: State, q: nat, p: nat)
    requires Step(size, s, t, q) && p < |t.ops| == |s.ops| && t.ops[p].Running? && t.ops[p].passed
    ensures s.ops[p] == t.ops[p] || Guard(size, s, t, p)
  {}

  lemma StepInto(size: nat, n: nat, run: seq<State>, i: nat, p: nat)
    requires Run(size, n, run) && i < |run| && p < n
    requires |run[i].ops| == n && run[i].ops[p].Running? && run[i].ops[p].passed
    ensures 0 < i && |run[i - 1].ops| == n
    ensures run[i - 1].ops[p] == run[i].ops[p] || Guard(size, run[i - 1], run[i - 1 + 1], p)
  {
    assert i > 0;
    var j := i - 1;
    RunKeeps(size, n, run, j);
    assert Next(size, run[j], run[j + 1]);
    hide Run, Inv, Step, Guard;
    var q :| Step(size, run[j], run[j + 1], q);
    PassedStep(size, run[j], run[j + 1], q, p);
  }

  /** Whoever is past the guard read it in some earlier step, and has done nothing since. */
  lemma {:induction false} GuardBefore(size: nat, n: nat, run: seq<State>, i: nat, p: nat) returns (j: nat)
    requires Run(size, n, run) && i < |run| && p < n
    requires |run[i].ops| == n && run[i].ops[p].Running? && run[i].ops[p].passed
    ensures j < i && Guard(size, run[j], run[j + 1], p)
    ensures forall k :: j < k <= i ==> |run[k].ops| == n && run[k].ops[p] == run[i].ops[p]
  {
    hide Run, Guard;
    StepInto(size, n, run, i, p);
    j := i - 1;
    if !Guard(size, run[j], run[j + 1], p) { j := GuardBefore(size, n, run, i - 1, p); }
  }

  /** Between two blocks that one process records, absorbed or appended, it has passed the
      guard again. */
  lemma GuardBetween(size: nat, n: nat, run: seq<State>, i: nat, k: nat, p: nat, b: nat, c: nat) returns (j: nat)
    requires Run(size, n, run) && i < k < |run| - 1 && p < n
    requires LogBlock(run[i], run[i + 1], p, b) && LogBlock(run[k], run[k + 1], p, c)
    ensures i < j < k && Guard(size, run[j], run[j + 1], p)
  {
    RunKeeps(size, n, run, k);
    j := GuardBefore(size, n, run, k, p);
  }

  // ---- What is committed

  lemma ListStep(size: nat, s: State, t: State, p: nat)
    requires Step(size, s, t, p) && Inv(s)
    ensures t.lh == s.lh || (t.lh == [] && s.committing) || (exists b :: b !in s.lh && t.lh == s.lh + [b])
  {
    if CommitBody(s, t, p) { SumsAtLeast(s.ops, p); }
    else if b :| LogBlock(s, t, p, b) { assert b in s.lh || t.lh == s.lh + [b]; }
  }

  /** A recorded block stays on the list until a commit that has it on its list. */
  lemma {:induction false} StaysListed(size: nat, n: nat, run: seq<State>, i: nat, j: nat, b: nat)
    requires Run(size, n, run) && i <= j < |run| && b in run[i].lh
    ensures b in run[j].lh || exists k :: i <= k < j && run[k].committing && b in run[k].lh
    decreases j
  {
    if i < j {
      var k := j - 1;
      StaysListed(size, n, run, i, k, b);
      RunKeeps(size, n, run, k);
      assert Next(size, run[k], run[k + 1]);
      var p :| Step(size, run[k], run[k + 1], p);
      ListStep(size, run[k], run[k + 1], p);
    }
  }

  /** Every block that an operation has recorded is on the list when the commit begins, its own
      or that of a group; until then no operation's blocks leave the list. */
  lemma Committed(size: nat, n: nat, run: seq<State>, i: nat, j: nat, p: nat, b: nat)
    requires Run(size, n, run) && i < j < |run| && LogBlock(run[i], run[i + 1], p, b)
    requires forall k :: i < k < j ==> !run[k].committing
    ensures b in run[j].lh
  {
    StaysListed(size, n, run, i + 1, j, b);
  }

  // ---- The size of the log on disk

  function Max(a: int): nat { if a < 0 then 0 else a }

  lemma Extend(size: nat, n: nat, run: seq<State>, t: State, p: nat)
    requires Run(size, n, run) && Step(size, run[|run| - 1], t, p)
    ensures Run(size, n, run + [t])
  {
    var r := run + [t];
    forall i | 0 <= i < |r| - 1 ensures Next(size, r[i], r[i + 1]) {
      if i < |run| - 1 { assert Next(size, run[i], run[i + 1]); }
    }
  }

  /** Blocks 0..k are listed; operations 0 and 1 run and have appended `u` and `v` of them. */
  function Pair(n: nat, k: nat, u: nat, v: nat): (s: State)
    requires n >= 2
  {
    State(seq(k, i => i), 2, false, [Running(u, false), Running(v, false)] + seq(n - 2, i => Out))
  }

  lemma PairStart(size: nat, n: nat) returns (run: seq<State>)
    requires n >= 2
    ensures Run(size, n, run) && run[|run| - 1] == Pair(n, 0, 0, 0)
  {
    var s0 := State([], 0, false, seq(n, i => Out));
    var s1 := s0.(outstanding := 1, ops := s0.ops[0 := Running(0, false)]);
    var s2 := s1.(outstanding := 2, ops := s1.ops[1 := Running(0, false)]);
    run := [s0];
    Extend(size, n, run, s1, 0);
    run := run + [s1];
    Extend(size, n, run, s2, 1);
    run := run + [s2];
    assert s2.lh == Pair(n, 0, 0, 0).lh && s2.ops == Pair(n, 0, 0, 0).ops;
  }

  /** One of the two appends the next block. */
  lemma PairAppend(size: nat, n: nat, run: seq<State>, k: nat, u: nat, v: nat, p: nat) returns (r: seq<State>)
    requires n >= 2 && Run(size, n, run) && run[|run| - 1] == Pair(n, k, u, v) && p < 2
    requires (if p == 0 then u else v) < MAXOPBLOCKS && GuardOk(size, Pair(n, k, u, v))
    ensures Run(size, n, r)
    ensures r[|r| - 1] == if p == 0 then Pair(n, k + 1, u + 1, v) else Pair(n, k + 1, u, v + 1)
  {
    var s := Pair(n, k, u, v);
    var mid := s.(ops := s.ops[p := s.ops[p].(passed := true)]);
    assert Guard(size, s, mid, p);
    Extend(size, n, run, mid, p);
    r := run + [mid];
    var t := if p == 0 then Pair(n, k + 1, u + 1, v) else Pair(n, k + 1, u, v + 1);
    assert t.lh == mid.lh + [k] && t.ops == mid.ops[p := Running(mid.ops[p].used + 1, false)];
    assert LogBlock(mid, t, p, k);
    Extend(size, n, r, t, p);
    r := r + [t];
  }

  /** The first ten blocks, all appended by operation 0. */
  lemma {:induction false} FillFirst(size: nat, n: nat, k: nat) returns (run: seq<State>)
    requires n >= 2 && k <= MAXOPBLOCKS && (k == 0 || k < size)
    ensures Run(size, n, run) && run[|run| - 1] == Pair(n, k, k, 0)
  {
    if k == 0 {
      run := PairStart(size, n);
    } else {
      run := FillFirst(size, n, k - 1);
      run := PairAppend(size, n, run, k - 1, k - 1, 0, 0);
    }
  }

  /** Operation 0 ends while operation 1 still runs, so nothing is committed, and its process
      begins another one. */
  lemma Turnover(size: nat, n: nat) returns (run: seq<State>)
    requires n >= 2 && MAXOPBLOCKS < size
    ensures Run(size, n, run) && run[|run| - 1] == Pair(n, MAXOPBLOCKS, 0, 0)
  {
    run := FillFirst(size, n, MAXOPBLOCKS);
    var s := Pair(n, MAXOPBLOCKS, MAXOPBLOCKS, 0);
    var t := s.(outstanding := 1, ops := s.ops[0 := Out]);
    assert Wake(s.ops[0 := Out]) == s.ops[0 := Out];
    assert EndMore(s, t, 0);
    Extend(size, n, run, t, 0);
    run := run + [t];
    var u := Pair(n, MAXOPBLOCKS, 0, 0);
    assert u.ops == t.ops[0 := Running(0, false)];
    assert BeginGo(t, u, 0);
    Extend(size, n, run, u, 0);
    run := run + [u];
  }

  /** The rest: operation 0 appends `c` more blocks, then operation 1 the others. */
  lemma {:induction false} FillRest(size: nat, n: nat, c: nat, k: nat) returns (run: seq<State>)
    requires n >= 2 && c <= MAXOPBLOCKS <= k <= MAXOPBLOCKS + 2 * c && k < size
    ensures Run(size, n, run)
    ensures run[|run| - 1] == Pair(n, k, Min(k - MAXOPBLOCKS, c), Max(k - MAXOPBLOCKS - c))
  {
    if k == MAXOPBLOCKS {
      run := Turnover(size, n);
    } else {
      run := FillRest(size, n, c, k - 1);
      var u, v := Min(k - 1 - MAXOPBLOCKS, c), Max(k - 1 - MAXOPBLOCKS - c);
      run := PairAppend(size, n, run, k - 1, u, v, if u < c then 0 else 1);
    }
  }

  /** One process alone, `k` blocks into its operation. */
  function Alone(k: nat): (s: State) { State(seq(k, i => i), 1, false, [Running(k, false)]) }

  lemma {:induction false} FillAlone(size: nat, k: nat) returns (run: seq<State>)
    requires k <= MAXOPBLOCKS && (k == 0 || k < size)
    ensures Run(size, 1, run) && run[|run| - 1] == Alone(k)
  {
    if k == 0 {
      var s, t := State([], 0, false, [Out]), Alone(0);
      assert t.ops == s.ops[0 := Running(0, false)];
      assert BeginGo(s, t, 0);
      Extend(size, 1, [s], t, 0);
      run := [s] + [t];
    } else {
      run := FillAlone(size, k - 1);
      var s, t := Alone(k - 1), Alone(k);
      var mid := s.(ops := s.ops[0 := Running(k - 1, true)]);
      assert Guard(size, s, mid, 0);
      Extend(size, 1, run, mid, 0);
      run := run + [mid];
      assert t.lh == mid.lh + [k - 1] && t.ops == mid.ops[0 := Running(k, false)];
      assert LogBlock(mid, t, 0, k - 1);
      Extend(size, 1, run, t, 0);
      run := run + [t];
    }
  }

  /** What one process alone keeps: its operation has appended all that is listed, and a guard
      that it has passed still holds. */
  ghost predicate AloneInv(size: nat, s: State) {
    && |s.ops| == 1 && |s.lh| <= Max(size - 1)
    && (s.ops[0].Running? ==> |s.lh| <= s.ops[0].used && (s.ops[0].passed ==> |s.lh| < size - 1))
  }

  lemma {:induction false} AloneKeeps(size: nat, run: seq<State>, i: nat)
    requires Run(size, 1, run) && i < |run|
    ensures AloneInv(size, run[i])
  {
    if i > 0 {
      AloneKeeps(size, run, i - 1);
      RunKeeps(size, 1, run, i - 1);
      var j := i - 1;
      assert Next(size, run[j], run[j + 1]);
      var p :| Step(size, run[j], run[i], p);
      assert Count([run[j].ops[0]]) == if run[j].ops[0].Running? then 1 else 0;
      assert run[j].ops == [run[j].ops[0]];
    }
  }

  /** Running operation `p` is about to log a new block that it has reserved and meets "too big
      a transaction". */
  predicate AppendBlocked(size: nat, s: State, p: nat) {
    p < |s.ops| && s.ops[p].Running? && !s.ops[p].passed && s.ops[p].used < MAXOPBLOCKS && !GuardOk(size, s)
  }

  /** The same for block `b` that is already listed, so that nothing would be appended. */
  predicate RepeatBlocked(size: nat, s: State, p: nat, b: nat) {
    && p < |s.ops| && s.ops[p].Running? && !s.ops[p].passed && s.ops[p].used <= MAXOPBLOCKS
    && b in s.lh && !GuardOk(size, s)
  }

  /** Writing block `b` is stopped although the operation is entitled to it. */
  predicate WriteBlocked(size: nat, s: State, p: nat, b: nat) {
    AppendBlocked(size, s, p) || RepeatBlocked(size, s, p, b)
  }

  /** How many blocks `n` processes can have listed together. */
  function Most(n: nat): nat { if n == 0 then 0 else if n == 1 then MAXOPBLOCKS else LOGSIZE }

  lemma ListBound(size: nat, n: nat, run: seq<State>, p: nat)
    requires Run(size, n, run)
    ensures
      var s := run[|run| - 1];
      p < |s.ops| && s.ops[p].Running? ==>
        && |s.lh| <= Most(n) && s.outstanding >= 1 && (s.ops[p].used < MAXOPBLOCKS ==> |s.lh| < Most(n))
  {
    var s := run[|run| - 1];
    RunKeeps(size, n, run, |run| - 1);
    if p < |s.ops| && s.ops[p].Running? { SumsAtLeast(s.ops, p); }
    if n == 1 { AloneKeeps(size, run, |run| - 1); }
  }

  lemma SomeAppendBlocked(size: nat, n: nat) returns (run: seq<State>, p: nat)
    requires n > 0 && size <= Most(n)
    ensures Run(size, n, run) && AppendBlocked(size, run[|run| - 1], p)
  {
    var k := Max(size - 1);
    p := 0;
    if n == 1 {
      run := FillAlone(size, k);
    } else if k < MAXOPBLOCKS {
      run := FillFirst(size, n, k);
    } else {
      run := FillRest(size, n, MAXOPBLOCKS, k);
      if k >= 2 * MAXOPBLOCKS { p := 1; }
    }
  }

  /** "too big a transaction" never stops an operation from appending a block that it has
      reserved, if and only if the log on disk has more blocks than the processes can list
      together: more than LOGSIZE for two or more. mkfs makes it exactly LOGSIZE. */
  lemma ReservationsHonoured(size: nat, n: nat)
    ensures (forall run, s, p: nat :: Reaches(size, n, run, s) ==> !AppendBlocked(size, s, p))
            <==> n == 0 || size > Most(n)
  {
    if n == 0 || size > Most(n) {
      forall run, s, p: nat | Reaches(size, n, run, s) ensures !AppendBlocked(size, s, p) {
        RunKeeps(size, n, run, |run| - 1);
        ListBound(size, n, run, p);
      }
    } else {
      var run, p := SomeAppendBlocked(size, n);
      assert Reaches(size, n, run, run[|run| - 1]);
    }
  }

  lemma SomeRepeatBlocked(size: nat, n: nat) returns (run: seq<State>, p: nat)
    requires (n == 1 && size == MAXOPBLOCKS + 1) || (n >= 2 && size > LOGSIZE)
    ensures Run(size, n, run) && RepeatBlocked(size, run[|run| - 1], p, 0)
  {
    p := 0;
    if n == 1 {
      run := FillAlone(size, MAXOPBLOCKS);
    } else {
      run := FillRest(size, n, MAXOPBLOCKS, LOGSIZE);
    }
    assert run[|run| - 1].lh[0] == 0;
  }

  /** The guard comes before absorption, so it also stops writes of blocks that are already
      listed. That it stops no write at all to which an operation is entitled holds if and only
      if one process runs alone on a log of more than MAXOPBLOCKS + 1 blocks: with two
      processes no size of the log is enough. */
  lemma EveryWriteHonoured(size: nat, n: nat)
    ensures (forall run, s, p: nat, b: nat :: Reaches(size, n, run, s) ==> !WriteBlocked(size, s, p, b))
            <==> n == 0 || (n == 1 && size > MAXOPBLOCKS + 1)
  {
    if n == 0 || (n == 1 && size > MAXOPBLOCKS + 1) {
      forall run, s, p: nat, b: nat | Reaches(size, n, run, s) ensures !WriteBlocked(size, s, p, b) {
        RunKeeps(size, n, run, |run| - 1);
        ListBound(size, n, run, p);
      }
    } else if size <= Most(n) {
      var run, p := SomeAppendBlocked(size, n);
      assert Reaches(size, n, run, run[|run| - 1]) && WriteBlocked(size, run[|run| - 1], p, 0);
    } else {
      var run, p := SomeRepeatBlocked(size, n);
      assert Reaches(size, n, run, run[|run| - 1]) && WriteBlocked(size, run[|run| - 1], p, 0);
    }
  }

  /** The list never outgrows the copies that the log area has room for, if and only if the
      log on disk has more than LOGSIZE blocks, or is the header alone, or one process has it
      to itself: otherwise two operations can both pass the guard at `size - 2` blocks and
      both append, and write_log would then write the block behind the log area. */
  lemma LogAreaSuffices(size: nat, n: nat)
    requires size >= 1
    ensures (forall run, s :: Reaches(size, n, run, s) ==> |s.lh| <= size - 1)
            <==> size > LOGSIZE || size == 1 || n <= 1
  {
    if size > LOGSIZE || size == 1 || n <= 1 {
      forall run, s | Reaches(size, n, run, s) ensures |s.lh| <= size - 1 {
        RunKeeps(size, n, run, |run| - 1);
        if n == 1 { AloneKeeps(size, run, |run| - 1); }
        assert n == 0 ==> s.ops == [];
        if size == 1 { HeaderOnly(n, run, |run| - 1); }
      }
    } else {
      var run := Race(size, n);
      assert Reaches(size, n, run, run[|run| - 1]);
    }
  }

  /** On a log of one block no guard is ever passed. */
  lemma {:induction false} HeaderOnly(n: nat, run: seq<State>, i: nat)
    requires Run(1, n, run) && i < |run|
    ensures run[i].lh == [] && forall p :: 0 <= p < |run[i].ops| && run[i].ops[p].Running? ==> !run[i].ops[p].passed
  {
    if i > 0 {
      HeaderOnly(n, run, i - 1);
      var j := i - 1;
      assert Next(1, run[j], run[j + 1]);
    }
  }

  /** The run in which the guard is passed twice before either append. */
  lemma Race(size: nat, n: nat) returns (run: seq<State>)
    requires n >= 2 && 2 <= size <= LOGSIZE
    ensures Run(size, n, run) && |run[|run| - 1].lh| == size
  {
    var k := size - 2;
    var u, v := k, 0;
    if k < MAXOPBLOCKS {
      run := FillFirst(size, n, k);
    } else {
      var c := MAXOPBLOCKS - 1;
      run := FillRest(size, n, c, k);
      u, v := Min(k - MAXOPBLOCKS, c), Max(k - MAXOPBLOCKS - c);
    }
    var s := Pair(n, k, u, v);
    var s1 := s.(ops := s.ops[0 := Running(u, true)]);
    var s2 := s1.(ops := s1.ops[1 := Running(v, true)]);
    var s3 := s2.(lh := s2.lh + [k], ops := s2.ops[0 := Running(u + 1, false)]);
    var s4 := s3.(lh := s3.lh + [k + 1], ops := s3.ops[1 := Running(v + 1, false)]);
    assert Guard(size, s, s1, 0) && Guard(size, s1, s2, 1);
    assert LogBlock(s2, s3, 0, k) && LogBlock(s3, s4, 1, k + 1);
    Extend(size, n, run, s1, 0);
    run := run + [s1];
    Extend(size, n, run, s2, 1);
    run := run + [s2];
    Extend(size, n, run, s3, 0);
    run := run + [s3];
    Extend(size, n, run, s4, 1);
    run := run + [s4];
  }
}
