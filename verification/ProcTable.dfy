/** The table-scanning loops of proc.c, run with ptable.lock held, against the table functions
    that the steps of module Proc are made of. */
module ProcTable {
  import opened Proc

  /** Among the first `n` slots. */
  predicate LeavesZombieIn(procs: seq<Proc>, p: nat, n: nat) {
    exists q :: 0 <= q < n && q < |procs| && procs[q].parent == p && procs[q].state == ZOMBIE
  }

  /** Slot `q` after the first `n` turns of exit's loop. */
  function HalfExit(x: Proc, q: nat, p: nat, up: int, z: bool, n: nat): Proc {
    var woken := x.state == SLEEPING && ((up >= 0 && x.chan == OfProc(up)) || (z && x.chan == OfProc(INIT)));
    x.(state := if woken then RUNNABLE else x.state,
       parent := if x.parent == p && q < n then INIT else x.parent)
  }

  lemma LeavesZombieNext(procs: seq<Proc>, p: nat, n: nat)
    requires n < |procs|
    ensures LeavesZombieIn(procs, p, n + 1) <==>
            LeavesZombieIn(procs, p, n) || (procs[n].parent == p && procs[n].state == ZOMBIE)
  {
    if q :| 0 <= q < n + 1 && q < |procs| && procs[q].parent == p && procs[q].state == ZOMBIE {
      assert q < n ==> LeavesZombieIn(procs, p, n);
    }
  }

  /** The table after the first `n` turns. */
  ghost predicate Halfway(was: seq<Proc>, now: seq<Proc>, p: nat, up: int, n: nat) {
    && |now| == |was| && n <= |was|
    && forall q :: 0 <= q < |now| ==> now[q] == HalfExit(was[q], q, p, up, LeavesZombieIn(was, p, n), n)
  }

  /** Slot `i` handed over to init, with init woken if it is a zombie. */
  function HandedOver(t: seq<Proc>, cur: nat, i: nat): (r: seq<Proc>)
    requires i < |t|
    ensures |r| == |t|
  {
    var mid := t[i := t[i].(parent := if t[i].parent == cur then INIT else t[i].parent)];
    if t[i].parent == cur && t[i].state == ZOMBIE then Awaken(mid, OfProc(INIT)) else mid
  }

  lemma HalfwayNext(was: seq<Proc>, now: seq<Proc>, p: nat, up: int, i: nat)
    requires Halfway(was, now, p, up, i) && i < |was|
    ensures Halfway(was, HandedOver(now, p, i), p, up, i + 1)
  {
    LeavesZombieNext(was, p, i);
    hide LeavesZombieIn;
  }

  lemma ExitStarts(was: seq<Proc>, p: nat)
    requires p < |was| && was[p].state == RUNNING && was[p].parent >= 0
    ensures |Awaken(was, OfProc(was[p].parent))| == |was|
    ensures Halfway(was, Awaken(was, OfProc(was[p].parent)), p, was[p].parent, 0)
  {
  }

  lemma ExitEnds(was: seq<Proc>, now: seq<Proc>, p: nat)
    requires p < |was| && was[p].state == RUNNING && Halfway(was, now, p, was[p].parent, |was|)
    ensures now[p := now[p].(state := ZOMBIE, act := Dead)] == ExitTable(was, p)
  {
    assert LeavesZombieIn(was, p, |was|) <==> LeavesZombie(was, p);
    hide LeavesZombieIn, LeavesZombie;
  }

  class Ptable {
    var proc: seq<Proc>

    constructor (slots: seq<Proc>)
      ensures proc == slots
    {
      proc := slots;
    }

    /** wakeup1: every sleeper on the channel becomes RUNNABLE, whatever the channel, and nobody else. */
    method Wakeup1(ch: Chan)
      modifies this
      ensures proc == Awaken(old(proc), ch) && |proc| == |old(proc)|
      ensures forall q :: 0 <= q < |proc| && old(proc)[q].state == SLEEPING && old(proc)[q].chan == ch ==>
        proc[q] == old(proc)[q].(state := RUNNABLE)
      ensures forall q :: 0 <= q < |proc| && !(old(proc)[q].state == SLEEPING && old(proc)[q].chan == ch) ==>
        proc[q] == old(proc)[q]
    {
      var i := 0;
      while i < |proc|
        invariant |proc| == |old(proc)| && 0 <= i <= |proc|
        invariant forall q :: 0 <= q < |proc| ==> proc[q] == if q < i then Woken(old(proc)[q], ch) else old(proc)[q]
      {
        if proc[i].state == SLEEPING && proc[i].chan == ch {
          proc := proc[i := proc[i].(state := RUNNABLE)];
        }
        i := i + 1;
      }
    }

    /** exit, from its wakeup of the parent to the ZOMBIE mark. */
    method Exit(cur: nat)
      requires cur < |proc| && proc[cur].state == RUNNING && proc[cur].parent >= 0
      modifies this
      ensures proc == ExitTable(old(proc), cur)
    {
      hide Halfway, Awaken, ExitTable;
      ghost var was := proc;
      ghost var up := proc[cur].parent;
      ExitStarts(was, cur);
      Wakeup1(OfProc(proc[cur].parent));
      var i := 0;
      while i < |proc|
        invariant |proc| == |was| && 0 <= i <= |proc| && Halfway(was, proc, cur, up, i)
      {
        HalfwayNext(was, proc, cur, up, i);
        ghost var now := proc;
        if proc[i].parent == cur {
          proc := proc[i := proc[i].(parent := INIT)];
          if proc[i].state == ZOMBIE { Wakeup1(OfProc(INIT)); }
        }
        assert proc == HandedOver(now, cur, i);
        i := i + 1;
      }
      ExitEnds(was, proc, cur);
      proc := proc[cur := proc[cur].(state := ZOMBIE, act := Dead)];
    }

    /** kill: the first slot with the pid is marked, and does not sleep any more. */
    method Kill(pid: nat) returns (r: int)
      modifies this
      ensures r == 0 <==> exists q :: 0 <= q < |old(proc)| && old(proc)[q].pid == pid
      ensures r == 0 || (r == -1 && proc == old(proc))
      ensures r == 0 ==> exists q ::
        && 0 <= q < |proc| == |old(proc)| && old(proc)[q].pid == pid
        && (forall k :: 0 <= k < q ==> old(proc)[k].pid != pid) && proc[q].killed && proc[q].state != SLEEPING
        && proc == old(proc)[q := old(proc)[q].(killed := true, state := proc[q].state)]
        && (proc[q].state == old(proc)[q].state || (old(proc)[q].state == SLEEPING && proc[q].state == RUNNABLE))
    {
      var i := 0;
      while i < |proc|
        invariant 0 <= i <= |proc| && proc == old(proc) && forall k :: 0 <= k < i ==> proc[k].pid != pid
      {
        if proc[i].pid == pid {
          proc := proc[i := proc[i].(killed := true)];
          if proc[i].state == SLEEPING {
            proc := proc[i := proc[i].(state := RUNNABLE)];
          }
          return 0;
        }
        i := i + 1;
      }
      r := -1;
    }

    /** allocproc's search: the first UNUSED slot, or the length of the table. */
    method FindUnused() returns (i: nat)
      ensures i <= |proc| && (i < |proc| ==> proc[i].state == UNUSED)
      ensures forall k :: 0 <= k < i ==> proc[k].state != UNUSED
    {
      i := 0;
      while i < |proc|
        invariant 0 <= i <= |proc| && forall k :: 0 <= k < i ==> proc[k].state != UNUSED
      {
        if proc[i].state == UNUSED { return; }
        i := i + 1;
      }
    }

    /** wait's scan: its first zombie child, or whether it has a child at all. */
    method ScanChildren(cur: nat) returns (found: int, havekids: bool)
      ensures found == -1 || (found >= 0 && ZombieChild(proc, cur, found))
      ensures forall r :: 0 <= r < (if found == -1 then |proc| else found) ==> !ZombieChild(proc, cur, r)
      ensures found == -1 ==> (havekids <==> HasChild(proc, cur))
    {
      havekids := false;
      var i := 0;
      while i < |proc|
        invariant 0 <= i <= |proc|
        invariant forall r :: 0 <= r < i ==> !ZombieChild(proc, cur, r)
        invariant havekids <==> exists q :: 0 <= q < i && proc[q].parent == cur
      {
        if proc[i].parent == cur {
          havekids := true;
          if proc[i].state == ZOMBIE { return i, true; }
        }
        i := i + 1;
      }
      found := -1;
    }
  }
}
