/** How scheduler of proc.c chooses: the outer scan goes on behind the last choice, the inner one
    looks through the whole table for a smaller priority number. */
module Scheduler {
  datatype Slot = Slot(runnable: bool, priority: int)

  /** The first RUNNABLE slot at or after `from`, or the table's length. */
  function FirstFrom(t: seq<Slot>, from: nat): (k: nat)
    requires from <= |t|
    ensures from <= k <= |t| && (k < |t| ==> t[k].runnable)
    ensures forall j :: from <= j < k ==> !t[j].runnable
    decreases |t| - from
  {
    if from == |t| || t[from].runnable then from else FirstFrom(t, from + 1)
  }

  /** Slot `k` has the smallest priority number of all RUNNABLE slots. */
  predicate Best(t: seq<Slot>, k: nat) {
    k < |t| && t[k].runnable && forall j :: 0 <= j < |t| && t[j].runnable ==> t[k].priority <= t[j].priority
  }

  /** The choice of one turn of the outer loop: the next RUNNABLE slot if nobody beats it, and
      otherwise the first of the table among the best. */
  predicate Chosen(t: seq<Slot>, from: nat, k: nat)
    requires from <= |t|
  {
    && Best(t, k)
    && var p := FirstFrom(t, from);
       if Best(t, p) then k == p else forall j :: 0 <= j < k ==> !Best(t, j)
  }

  /** One turn of the two nested scans; `|t|` when the outer scan ends without a choice. */
  method Pick(t: seq<Slot>, from: nat) returns (high: nat)
    requires from <= |t|
    ensures if FirstFrom(t, from) == |t| then high == |t| else Chosen(t, from, high)
  {
    var p := from;
    while p < |t|
      invariant from <= p <= |t| && FirstFrom(t, p) == FirstFrom(t, from)
    {
      if !t[p].runnable {
        p := p + 1;
        continue;
      }
      high := p;
      var p1 := 0;
      while p1 < |t|
        invariant 0 <= p1 <= |t| && high < |t| && t[high].runnable && (high == p || high < p1)
        invariant t[high].priority <= t[p].priority
        invariant forall j :: 0 <= j < p1 && t[j].runnable ==> t[high].priority <= t[j].priority
        invariant high != p ==> t[high].priority < t[p].priority
        invariant high != p ==> forall j :: 0 <= j < high && t[j].runnable ==> t[high].priority < t[j].priority
      {
        if t[p1].runnable && t[high].priority > t[p1].priority { high := p1; }
        p1 := p1 + 1;
      }
      return;
    }
    high := |t|;
  }

  // ---- Fairness among equals on one CPU

  /** What the CPU does next: a choice, or the end of a pass, after which the lock is given back
      and the scan starts over. */
  datatype Event = Picked(k: nat) | PassEnds

  /** The table a turn sees, and what comes of it. */
  datatype Turn = Turn(table: seq<Slot>, event: Event)

  predicate TurnOk(from: nat, turn: Turn) {
    && from <= |turn.table|
    && if FirstFrom(turn.table, from) == |turn.table| then turn.event == PassEnds
       else turn.event.Picked? && Chosen(turn.table, from, turn.event.k)
  }

  function NextFrom(event: Event): nat { if event.Picked? then event.k + 1 else 0 }

  /** A stretch of turns of one CPU; the table may change in any way between them. */
  predicate Turns(from: nat, trace: seq<Turn>)
    decreases |trace|
  {
    trace == [] || (TurnOk(from, trace[0]) && Turns(NextFrom(trace[0].event), trace[1..]))
  }

  function Picks(trace: seq<Turn>): nat {
    if trace == [] then 0 else (if trace[0].event.Picked? then 1 else 0) + Picks(trace[1..])
  }

  predicate Level(t: seq<Slot>) {
    forall i, j :: 0 <= i < |t| && 0 <= j < |t| && t[i].runnable && t[j].runnable ==> t[i].priority == t[j].priority
  }

  /** `x` waits in a table of `n` slots whose RUNNABLE slots all have one priority. */
  predicate Waits(turn: Turn, n: nat, x: nat) {
    |turn.table| == n && x < n && turn.table[x].runnable && Level(turn.table)
  }

  /** How many slots the scan passes before it reaches `x`. */
  function Ahead(from: nat, n: nat, x: nat): int { if from <= x then x - from else n - from + x }

  lemma {:induction false} PassedOver(from: nat, trace: seq<Turn>, n: nat, x: nat)
    requires Turns(from, trace) && from <= n && x < n
    requires forall i :: 0 <= i < |trace| ==> Waits(trace[i], n, x) && trace[i].event != Picked(x)
    ensures Picks(trace) <= Ahead(from, n, x)
    decreases |trace|
  {
    if trace != [] {
      assert Waits(trace[0], n, x);
      var e := trace[0].event;
      if e.Picked? { EqualsTakeTurns(trace[0].table, from, e.k); }
      PassedOver(NextFrom(e), trace[1..], n, x);
    }
  }

  lemma EqualsTakeTurns(t: seq<Slot>, from: nat, k: nat)
    requires from <= |t| && Level(t) && FirstFrom(t, from) < |t| && Chosen(t, from, k)
    ensures k == FirstFrom(t, from)
  {
    assert Best(t, FirstFrom(t, from));
  }

  /** While all RUNNABLE processes have one priority, one that stays RUNNABLE is among the next
      `n` picks of the CPU, `n` being the size of the table. */
  lemma PickedWithinNproc(from: nat, trace: seq<Turn>, n: nat, x: nat)
    requires Turns(from, trace) && from <= n && x < n && Picks(trace) >= n
    requires forall i :: 0 <= i < |trace| ==> Waits(trace[i], n, x)
    ensures exists i :: 0 <= i < |trace| && trace[i].event == Picked(x)
  {
    if forall i :: 0 <= i < |trace| ==> trace[i].event != Picked(x) {
      PassedOver(from, trace, n, x);
      assert false;
    }
  }
}
