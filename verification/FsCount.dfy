/** What mapping the blocks of a file costs: how many blocks are allocated, which ones, and that
    no other address changes. */
module FsCount {
  import opened Blocks
  import opened FsLayout
  import opened FsState

  /** The data blocks that nobody owns. */
  ghost function FreeSet(sb: Super, s: State): set<nat> {
    set b: nat | b < sb.size && sb.IsData(b) && b !in s.owner
  }

  lemma FreeMeans(sb: Super, s: State, b: nat)
    requires Owned(sb, s) && b < sb.size
    ensures b in FreeSet(sb, s) <==> !Marked(sb, s, b)
  {
    assert BitOk(sb, s, b);
  }

  /** From `s` to `t` exactly `k` blocks were allocated, lowest first, and none changed hands. */
  ghost predicate Allots(sb: Super, s: State, t: State, k: nat) {
    && (forall b :: b in s.owner ==> b in t.owner && t.owner[b] == s.owner[b])
    && |FreeSet(sb, t)| + k == |FreeSet(sb, s)|
    && (forall b, c :: b in t.owner && b !in s.owner && sb.IsData(c) && 0 <= c < b ==> c in t.owner)
  }

  lemma AllotsNone(sb: Super, s: State)
    ensures Allots(sb, s, s, 0)
  {
  }

  lemma AllotsTrans(sb: Super, s: State, t: State, u: State, j: nat, k: nat)
    requires Allots(sb, s, t, j) && Allots(sb, t, u, k)
    ensures Allots(sb, s, u, j + k)
  {
  }

  /** One block, the first free one, found an owner. */
  lemma AllotsOne(sb: Super, s: State, t: State, b: nat, r: Ref)
    requires b < sb.size && sb.IsData(b) && b !in s.owner && t.owner == s.owner[b := r]
    requires forall c :: sb.IsData(c) && 0 <= c < b ==> c in s.owner
    ensures Allots(sb, s, t, 1)
  {
    assert FreeSet(sb, s) == FreeSet(sb, t) + {b};
  }

  // ---- One block of a file

  function One(b: bool): nat { if b then 1 else 0 }

  /** The blocks that bmap has to allocate for block `bn` of file `n`. */
  function NeedOne(sb: Super, s: State, n: nat, bn: nat): nat
    requires Shape(sb, s) && n < sb.ninodes && bn < MAXFILE
  {
    One(AddrOf(sb, s, BRef(n, bn)) == 0) + One(bn >= NDIRECT && s.ino[n].addrs[NDIRECT] == 0)
  }

  ghost predicate Stays(sb: Super, s: State, t: State, r: Ref)
    requires Shape(sb, s) && Shape(sb, t) && Names(sb, r)
  {
    AddrOf(sb, t, r) == AddrOf(sb, s, r)
  }

  /** Block `bn` of file `n` is mapped; no other address has changed, but for the indirect block
      if it was missing. */
  ghost predicate OneMap(sb: Super, s: State, t: State, n: nat, bn: nat) {
    && Shape(sb, s) && Shape(sb, t) && n < sb.ninodes && bn < MAXFILE
    && AddrOf(sb, t, BRef(n, bn)) != 0
    && (forall r :: Names(sb, r) && r != BRef(n, bn) && r != Direct(n, NDIRECT) ==> Stays(sb, s, t, r))
    && (bn < NDIRECT || s.ino[n].addrs[NDIRECT] != 0 ==> t.ino[n].addrs[NDIRECT] == s.ino[n].addrs[NDIRECT])
    && (bn >= NDIRECT ==> t.ino[n].addrs[NDIRECT] != 0)
    && Allots(sb, s, t, NeedOne(sb, s, n, bn))
  }

  /** The place `r` is mapped at the cost of one block if it was not; no other address changes. */
  ghost predicate RefMap(sb: Super, s: State, t: State, r: Ref) {
    && Shape(sb, s) && Shape(sb, t) && Names(sb, r) && AddrOf(sb, t, r) != 0
    && (forall q :: Names(sb, q) && q != r ==> Stays(sb, s, t, q))
    && Allots(sb, s, t, One(AddrOf(sb, s, r) == 0))
  }

  lemma RefMapped(sb: Super, s: State, r: Ref)
    requires Shape(sb, s) && Names(sb, r) && AddrOf(sb, s, r) != 0
    ensures RefMap(sb, s, s, r)
  {
    AllotsNone(sb, s);
  }

  lemma FirstFree(sb: Super, s: State, b: nat)
    requires Owned(sb, s) && b < sb.size && !Marked(sb, s, b) && forall c: nat :: c < b ==> Marked(sb, s, c)
    ensures sb.IsData(b) && b !in s.owner && forall c :: sb.IsData(c) && 0 <= c < b ==> c in s.owner
  {
    assert BitOk(sb, s, b);
    forall c | sb.IsData(c) && 0 <= c < b ensures c in s.owner { assert BitOk(sb, s, c); }
  }

  /** Allocating leaves all addresses. */
  lemma AllocatedStays(sb: Super, s: State, b: nat, r: Ref)
    requires Owned(sb, s) && sb.IsData(b) && b !in s.owner && Names(sb, r)
    ensures Shape(sb, Allocated(sb, s, b)) && Stays(sb, s, Allocated(sb, s, b), r)
  {
    if r.Entry? { assert RefOk(sb, s, Direct(r.inum, NDIRECT)); }
  }

  lemma DirectMap(sb: Super, s: State, n: nat, i: nat, b: uint32)
    requires Owned(sb, s) && n < sb.ninodes && i <= NDIRECT && s.ino[n].addrs[i] == 0
    requires b < sb.size && !Marked(sb, s, b) && forall c: nat :: c < b ==> Marked(sb, s, c)
    ensures sb.IsData(b) && RefMap(sb, s, WithDirect(Allocated(sb, s, b), n, i, b), Direct(n, i))
  {
    hide Owned, Marked;
    OwnedShape(sb, s);
    FirstFree(sb, s, b);
    AllocatedOwned(sb, s, b);
    var m := Allocated(sb, s, b);
    var t := WithDirect(m, n, i, b);
    assert sb.DataStart() > 0;
    forall q | Names(sb, q) && q != Direct(n, i) ensures Stays(sb, s, t, q) {
      AllocatedStays(sb, s, b, q);
      DirectAddrs(sb, m, n, i, b, q);
    }
    AllotsOne(sb, s, t, b, Direct(n, i));
  }

  lemma EntryMap(sb: Super, s: State, n: nat, j: nat, b: uint32)
    requires Owned(sb, s) && n < sb.ninodes && j < NINDIRECT
    requires s.ino[n].addrs[NDIRECT] != 0 && AddrOf(sb, s, Entry(n, j)) == 0
    requires b < sb.size && !Marked(sb, s, b) && forall c: nat :: c < b ==> Marked(sb, s, c)
    ensures sb.IsData(b) && s.ino[n].addrs[NDIRECT] < |s.blk|
    ensures RefMap(sb, s, WithEntry(Allocated(sb, s, b), n, j, b), Entry(n, j))
  {
    FirstFree(sb, s, b);
    AllocatedOwned(sb, s, b);
    var m := Allocated(sb, s, b);
    assert RefOk(sb, s, Direct(n, NDIRECT));
    var t := WithEntry(m, n, j, b);
    assert sb.DataStart() > 0;
    EntryAddrs(sb, m, n, j, b, Entry(n, j));
    forall q | Names(sb, q) && q != Entry(n, j) ensures Stays(sb, s, t, q) {
      AllocatedStays(sb, s, b, q);
      EntryAddrs(sb, m, n, j, b, q);
    }
    hide Owned, Stays, Marked;
    AllotsOne(sb, s, t, b, Entry(n, j));
  }

  lemma DirectIsOneMap(sb: Super, s: State, t: State, n: nat, bn: nat)
    requires bn < NDIRECT && n < sb.ninodes && RefMap(sb, s, t, Direct(n, bn))
    ensures OneMap(sb, s, t, n, bn)
  {
    assert Stays(sb, s, t, Direct(n, NDIRECT));
  }

  lemma EntryIsOneMap(sb: Super, s: State, m: State, t: State, n: nat, bn: nat)
    requires NDIRECT <= bn < MAXFILE && n < sb.ninodes
    requires RefMap(sb, s, m, Direct(n, NDIRECT)) && RefMap(sb, m, t, Entry(n, bn - NDIRECT))
    requires s.ino[n].addrs[NDIRECT] != 0 ==> m == s
    ensures OneMap(sb, s, t, n, bn)
    ensures NeedOne(sb, s, n, bn) == One(s.ino[n].addrs[NDIRECT] == 0) + One(AddrOf(sb, m, BRef(n, bn)) == 0)
  {
    assert Stays(sb, s, m, BRef(n, bn)) && Stays(sb, m, t, Direct(n, NDIRECT));
    forall r | Names(sb, r) && r != BRef(n, bn) && r != Direct(n, NDIRECT) ensures Stays(sb, s, t, r) {
      assert Stays(sb, s, m, r) && Stays(sb, m, t, r);
    }
    AllotsTrans(sb, s, m, t, One(s.ino[n].addrs[NDIRECT] == 0), One(AddrOf(sb, m, BRef(n, bn)) == 0));
  }

  /** Writing a file block changes no address. */
  lemma PutDataStays(sb: Super, s: State, n: nat, k: nat, data: Block, r: Ref)
    requires Owned(sb, s) && n < sb.ninodes && k < MAXFILE && AddrOf(sb, s, BRef(n, k)) != 0 && Names(sb, r)
    ensures AddrOf(sb, s, BRef(n, k)) < |s.blk|
    ensures
      var t := s.(blk := s.blk[AddrOf(sb, s, BRef(n, k)) := data]);
      Shape(sb, t) && Stays(sb, s, t, r)
  {
    assert RefOk(sb, s, BRef(n, k));
    if r.Entry? { assert RefOk(sb, s, Direct(r.inum, NDIRECT)); }
  }

  lemma OneMapThenData(sb: Super, s: State, t: State, n: nat, k: nat, data: Block)
    requires OneMap(sb, s, t, n, k) && Owned(sb, t)
    ensures AddrOf(sb, t, BRef(n, k)) < |t.blk|
    ensures OneMap(sb, s, t.(blk := t.blk[AddrOf(sb, t, BRef(n, k)) := data]), n, k)
  {
    PutDataStays(sb, t, n, k, data, BRef(n, k));
    PutDataStays(sb, t, n, k, data, Direct(n, NDIRECT));
    var u := t.(blk := t.blk[AddrOf(sb, t, BRef(n, k)) := data]);
    forall r | Names(sb, r) && r != BRef(n, k) && r != Direct(n, NDIRECT) ensures Stays(sb, s, u, r) {
      assert Stays(sb, s, t, r);
      PutDataStays(sb, t, n, k, data, r);
    }
    assert u.owner == t.owner && FreeSet(sb, u) == FreeSet(sb, t);
  }

  // ---- A range of blocks

  /** How many of the blocks from `lo` to `hi` of file `n` have no address. */
  function Holes(sb: Super, s: State, n: nat, lo: nat, hi: nat): nat
    requires Shape(sb, s) && n < sb.ninodes && hi <= MAXFILE
    decreases hi
  {
    if lo >= hi then 0 else Holes(sb, s, n, lo, hi - 1) + One(AddrOf(sb, s, BRef(n, hi - 1)) == 0)
  }

  /** The blocks that have to be allocated to map them. */
  function Need(sb: Super, s: State, n: nat, lo: nat, hi: nat): nat
    requires Shape(sb, s) && n < sb.ninodes && hi <= MAXFILE
  {
    Holes(sb, s, n, lo, hi) + One(lo < hi && hi > NDIRECT && s.ino[n].addrs[NDIRECT] == 0)
  }

  lemma {:induction false} NeedGrows(sb: Super, s: State, n: nat, lo: nat, k: nat, hi: nat)
    requires Shape(sb, s) && n < sb.ninodes && k <= hi <= MAXFILE
    ensures Need(sb, s, n, lo, k) <= Need(sb, s, n, lo, hi)
    decreases hi
  {
    if k < hi { NeedGrows(sb, s, n, lo, k, hi - 1); }
  }

  /** The blocks from `lo` to `k` have been mapped, and nothing else. */
  ghost predicate RangeMap(sb: Super, s: State, t: State, n: nat, lo: nat, k: nat) {
    && Shape(sb, s) && Shape(sb, t) && n < sb.ninodes && lo <= k <= MAXFILE
    && (forall bn :: lo <= bn < k ==> AddrOf(sb, t, BRef(n, bn)) != 0)
    && (forall r :: Names(sb, r) && !InRange(r, n, lo, k) ==> Stays(sb, s, t, r))
    && (k <= NDIRECT || lo == k || s.ino[n].addrs[NDIRECT] != 0 ==> t.ino[n].addrs[NDIRECT] == s.ino[n].addrs[NDIRECT])
    && (lo < k && k > NDIRECT ==> t.ino[n].addrs[NDIRECT] != 0)
    && Allots(sb, s, t, Need(sb, s, n, lo, k))
  }

  predicate InRange(r: Ref, n: nat, lo: nat, k: nat) {
    match r
    case Direct(m, i) => m == n && (i == NDIRECT || lo <= i < k)
    case Entry(m, j) => m == n && lo <= j + NDIRECT < k
    case Loose => false
  }

  lemma RangeNone(sb: Super, s: State, n: nat, lo: nat)
    requires Shape(sb, s) && n < sb.ninodes && lo <= MAXFILE
    ensures RangeMap(sb, s, s, n, lo, lo)
  {
    AllotsNone(sb, s);
  }

  lemma RangeAddrs(sb: Super, s: State, t: State, u: State, n: nat, lo: nat, k: nat)
    requires RangeMap(sb, s, t, n, lo, k) && OneMap(sb, t, u, n, k)
    ensures forall bn :: lo <= bn < k + 1 ==> AddrOf(sb, u, BRef(n, bn)) != 0
    ensures forall r :: Names(sb, r) && !InRange(r, n, lo, k + 1) ==> Stays(sb, s, u, r)
  {
    forall bn | lo <= bn < k + 1 ensures AddrOf(sb, u, BRef(n, bn)) != 0 {
      if bn < k { assert AddrOf(sb, t, BRef(n, bn)) != 0 && Stays(sb, t, u, BRef(n, bn)); }
    }
    forall r | Names(sb, r) && !InRange(r, n, lo, k + 1) ensures Stays(sb, s, u, r) {
      assert Stays(sb, s, t, r) && Stays(sb, t, u, r);
    }
  }

  lemma RangeStep(sb: Super, s: State, t: State, u: State, n: nat, lo: nat, k: nat)
    requires RangeMap(sb, s, t, n, lo, k) && OneMap(sb, t, u, n, k)
    ensures RangeMap(sb, s, u, n, lo, k + 1)
    ensures Need(sb, s, n, lo, k + 1) == Need(sb, s, n, lo, k) + NeedOne(sb, t, n, k)
  {
    RangeAddrs(sb, s, t, u, n, lo, k);
    RangeCost(sb, s, t, n, lo, k);
    hide Stays, Allots;
    AllotsTrans(sb, s, t, u, Need(sb, s, n, lo, k), NeedOne(sb, t, n, k));
  }

  /** What the next block costs now, it would have cost at the start, except for an indirect block
      allocated since. */
  lemma RangeCost(sb: Super, s: State, t: State, n: nat, lo: nat, k: nat)
    requires RangeMap(sb, s, t, n, lo, k) && k < MAXFILE
    ensures Need(sb, s, n, lo, k + 1) == Need(sb, s, n, lo, k) + NeedOne(sb, t, n, k)
  {
    assert Stays(sb, s, t, BRef(n, k));
  }

  lemma SameRange(sb: Super, s: State, t: State, u: State, n: nat, lo: nat, k: nat)
    requires RangeMap(sb, s, t, n, lo, k) && Shape(sb, u) && u.owner == t.owner
    requires forall r :: Names(sb, r) ==> Stays(sb, t, u, r)
    ensures RangeMap(sb, s, u, n, lo, k)
  {
    assert Stays(sb, t, u, Direct(n, NDIRECT));
    forall bn | lo <= bn < k ensures AddrOf(sb, u, BRef(n, bn)) != 0 {
      assert Stays(sb, t, u, BRef(n, bn));
    }
    forall r | Names(sb, r) && !InRange(r, n, lo, k) ensures Stays(sb, s, u, r) {
      assert Stays(sb, s, t, r) && Stays(sb, t, u, r);
    }
    assert FreeSet(sb, u) == FreeSet(sb, t);
  }

  lemma {:induction false} NoHoles(sb: Super, s: State, n: nat, lo: nat, hi: nat)
    requires Shape(sb, s) && n < sb.ninodes && hi <= MAXFILE
    requires forall bn :: lo <= bn < hi ==> AddrOf(sb, s, BRef(n, bn)) != 0
    ensures Need(sb, s, n, lo, hi) == 0
    decreases hi
  {
    if lo < hi {
      NoHoles(sb, s, n, lo, hi - 1);
      assert AddrOf(sb, s, BRef(n, hi - 1)) != 0;
    }
  }

  /** Past the mapped range, there are as many holes as before. */
  lemma {:induction false} HolesPast(sb: Super, s: State, t: State, n: nat, lo: nat, k: nat, m: nat, hi: nat)
    requires RangeMap(sb, s, t, n, lo, k) && lo <= m <= k <= hi <= MAXFILE
    ensures Holes(sb, s, n, lo, hi) == Holes(sb, s, n, lo, k) + Holes(sb, t, n, m, hi)
    decreases hi
  {
    if k == hi {
      NoHoles(sb, t, n, m, hi);
    } else {
      HolesPast(sb, s, t, n, lo, k, m, hi - 1);
      assert Stays(sb, s, t, BRef(n, hi - 1));
    }
  }

  /** Mapping on from `m`, inside or at the end of the mapped range, costs the difference. */
  lemma NeedPast(sb: Super, s: State, t: State, n: nat, lo: nat, k: nat, m: nat, hi: nat)
    requires RangeMap(sb, s, t, n, lo, k) && lo <= m <= k <= hi <= MAXFILE
    ensures Need(sb, s, n, lo, hi) == Need(sb, s, n, lo, k) + Need(sb, t, n, m, hi)
    ensures |FreeSet(sb, t)| < Need(sb, t, n, m, hi) <==> |FreeSet(sb, s)| < Need(sb, s, n, lo, hi)
  {
    HolesPast(sb, s, t, n, lo, k, m, hi);
  }

  lemma RangeJoin(sb: Super, s: State, t: State, u: State, n: nat, lo: nat, k: nat, m: nat, hi: nat)
    requires RangeMap(sb, s, t, n, lo, k) && RangeMap(sb, t, u, n, m, hi)
    requires lo <= m <= k <= hi
    ensures RangeMap(sb, s, u, n, lo, hi)
    ensures Need(sb, s, n, lo, hi) == Need(sb, s, n, lo, k) + Need(sb, t, n, m, hi)
  {
    NeedPast(sb, s, t, n, lo, k, m, hi);
    forall bn | lo <= bn < hi ensures AddrOf(sb, u, BRef(n, bn)) != 0 {
      if bn < m { assert AddrOf(sb, t, BRef(n, bn)) != 0 && Stays(sb, t, u, BRef(n, bn)); }
    }
    forall r | Names(sb, r) && !InRange(r, n, lo, hi) ensures Stays(sb, s, u, r) {
      assert Stays(sb, s, t, r) && Stays(sb, t, u, r);
    }
    hide Stays, Allots;
    AllotsTrans(sb, s, t, u, Need(sb, s, n, lo, k), Need(sb, t, n, m, hi));
  }
}
