/** itrunc: what letting go of a file's blocks does to everything else. */
module FsTrunc {
  import opened Blocks
  import opened Collections
  import opened FsLayout
  import opened FsState

  ghost predicate AddrStays(sb: Super, s: State, t: State, n: nat, r: Ref)
    requires Shape(sb, s) && Shape(sb, t) && Names(sb, r)
  {
    r.inum != n ==> AddrOf(sb, t, r) == AddrOf(sb, s, r)
  }

  /** Nothing has happened to any inode, address or file other than `n`'s, nor on disk to any
      inode at all. */
  ghost predicate Apart(sb: Super, s: State, t: State, n: nat) {
    && Shape(sb, s) && Shape(sb, t) && |t.blk| == |s.blk|
    && (forall x :: sb.inodestart <= x < sb.bmapstart ==> t.blk[x] == s.blk[x])
    && (forall m :: 0 <= m < sb.ninodes && m != n ==> t.ino[m] == s.ino[m])
    && OthersSame(sb, s, t, n)
    && (forall r :: Names(sb, r) ==> AddrStays(sb, s, t, n, r))
  }

  lemma ApartNone(sb: Super, s: State, n: nat)
    requires Shape(sb, s)
    ensures Apart(sb, s, s, n)
  {
  }

  lemma ApartTrans(sb: Super, s: State, t: State, u: State, n: nat)
    requires Apart(sb, s, t, n) && Apart(sb, t, u, n)
    ensures Apart(sb, s, u, n)
  {
    forall r | Names(sb, r) ensures AddrStays(sb, s, u, n, r) {
      assert AddrStays(sb, s, t, n, r) && AddrStays(sb, t, u, n, r);
    }
  }

  lemma WithoutDirectApart(sb: Super, s: State, n: nat, i: nat)
    requires Owned(sb, s) && n < sb.ninodes && i < NDIRECT && s.ino[n].addrs[i] != 0
    ensures Apart(sb, s, WithoutDirect(s, n, i), n)
  {
    WithoutDirectOwned(sb, s, n, i);
  }

  lemma WithoutIndirectApart(sb: Super, s: State, n: nat)
    requires Owned(sb, s) && n < sb.ninodes
    ensures Apart(sb, s, WithoutIndirect(s, n), n)
  {
    WithoutIndirectOwned(sb, s, n);
  }

  lemma FreedApart(sb: Super, s: State, b: nat, n: nat)
    requires Owned(sb, s) && b in s.owner && s.owner[b].Loose?
    ensures sb.IsData(b) && Apart(sb, s, Freed(sb, s, b), n)
  {
    FreedOwned(sb, s, b);
    var t := Freed(sb, s, b);
    forall r | Names(sb, r) ensures AddrStays(sb, s, t, n, r) {
      assert RefOk(sb, s, r);
      if r.Entry? { assert RefOk(sb, s, Direct(r.inum, NDIRECT)); }
    }
  }

  /** Whether a place belongs to inode `n`. */
  predicate IsOf(r: Ref, n: nat) { !r.Loose? && r.inum == n }

  // ---- The indirect block

  ghost function EntriesUpTo(bp: Block, j: nat): set<nat>
    requires j <= NINDIRECT
  {
    if j == 0 then {} else EntriesUpTo(bp, j - 1) + {Word(bp, j - 1) as nat}
  }

  lemma {:induction false} EntriesUpToHas(bp: Block, j: nat, b: nat)
    requires j <= NINDIRECT
    ensures b in EntriesUpTo(bp, j) <==> exists k :: 0 <= k < j && Word(bp, k) == b
  {
    if j > 0 { EntriesUpToHas(bp, j - 1, b); }
  }

  /** Entry `j` is loose once the indirect block is let go of, and no other place of the
      inode's indirect block names the same block. */
  lemma EntryLoose(sb: Super, s: State, n: nat, j: nat)
    requires Owned(sb, s) && n < sb.ninodes && j < NINDIRECT && s.ino[n].addrs[NDIRECT] != 0
    ensures
      var ind, w := s.ino[n].addrs[NDIRECT], WithoutIndirect(s, n);
      && 0 < ind < |s.blk| && ind as nat in w.owner && w.owner[ind as nat].Loose?
      && var e := Word(s.blk[ind], j) as nat;
         e != 0 ==> e in w.owner && w.owner[e].Loose? && e != ind && e !in EntriesUpTo(s.blk[ind], j)
  {
    assert RefOk(sb, s, Direct(n, NDIRECT)) && RefOk(sb, s, Entry(n, j));
    var bp := s.blk[s.ino[n].addrs[NDIRECT]];
    var e := Word(bp, j) as nat;
    if e != 0 {
      EntriesUpToHas(bp, j, e);
      forall k | 0 <= k < j ensures Word(bp, k) != e {
        assert RefOk(sb, s, Entry(n, k));
      }
    }
  }

  /** When indirect block and entries are freed nothing loose is left. */
  lemma AllEntriesFreed(sb: Super, s: State, n: nat, b: nat)
    requires Owned(sb, s) && n < sb.ninodes && s.ino[n].addrs[NDIRECT] != 0 && b in s.owner && !s.owner[b].Loose?
    ensures 0 < s.ino[n].addrs[NDIRECT] < |s.blk|
    ensures
      var ind := s.ino[n].addrs[NDIRECT];
      WithoutIndirect(s, n).owner[b].Loose? ==> b == ind || b in EntriesUpTo(s.blk[ind], NINDIRECT)
  {
    assert RefOk(sb, s, Direct(n, NDIRECT)) && BlockOk(sb, s, b);
    var ind := s.ino[n].addrs[NDIRECT];
    if s.owner[b].Entry? && s.owner[b].inum == n {
      EntriesUpToHas(s.blk[ind], NINDIRECT, b);
      assert Word(s.blk[ind], s.owner[b].j) == b;
    }
  }

  /** Only blocks of inode `n` have gone. */
  ghost predicate Shed(o: map<nat, Ref>, o': map<nat, Ref>, n: nat) {
    && (forall b :: b in o' ==> b in o && o'[b] == o[b])
    && (forall b :: b in o && !IsOf(o[b], n) ==> b in o')
  }

  ghost predicate AllOwned(s: State) {
    forall b :: b in s.owner ==> !s.owner[b].Loose?
  }

  /** Freeing one direct block, from start to end. */
  lemma FreeDirectDone(sb: Super, s: State, n: nat, i: nat)
    requires Owned(sb, s) && AllOwned(s) && n < sb.ninodes && i < NDIRECT && s.ino[n].addrs[i] != 0
    ensures sb.IsData(s.ino[n].addrs[i]) && Marked(sb, s, s.ino[n].addrs[i]) && s.ino[n].addrs[i] as nat in s.owner
    ensures
      var t := SetAddr(Freed(sb, s, s.ino[n].addrs[i]), n, i, 0);
      Owned(sb, t) && AllOwned(t) && Apart(sb, s, t, n) && Shed(s.owner, t.owner, n)
  {
    hide Owned, Apart, OthersSame;
    DirectOwned(sb, s, n, i);
    var b := s.ino[n].addrs[i];
    var w := WithoutDirect(s, n, i);
    WithoutDirectOwned(sb, s, n, i);
    OwnedShape(sb, w);
    WithoutDirectApart(sb, s, n, i);
    FreedOwned(sb, w, b);
    FreedApart(sb, w, b, n);
    ApartTrans(sb, s, w, Freed(sb, w, b), n);
    assert Freed(sb, w, b) == SetAddr(Freed(sb, s, b), n, i, 0) by {
      assert w.owner - {b as nat} == s.owner - {b as nat};
    }
  }

  lemma ZeroUnowned(sb: Super, s: State)
    requires Owned(sb, s)
    ensures 0 !in s.owner
  {
  }

  /** While the entries are freed: the state `v` in which inode `n` has no indirect block any
      more, and how much of what `s` owned is left. */
  ghost predicate Draining(sb: Super, s: State, v: State, n: nat, j: nat) {
    && Owned(sb, s) && AllOwned(s) && n < sb.ninodes && j <= NINDIRECT && 0 < s.ino[n].addrs[NDIRECT] < |s.blk|
    && Owned(sb, v) && Apart(sb, s, v, n) && v.ino == WithoutIndirect(s, n).ino
    && v.owner == WithoutIndirect(s, n).owner - EntriesUpTo(s.blk[s.ino[n].addrs[NDIRECT]], j)
    && v.blk[s.ino[n].addrs[NDIRECT]] == s.blk[s.ino[n].addrs[NDIRECT]]
  }

  lemma DrainStart(sb: Super, s: State, n: nat)
    requires Owned(sb, s) && AllOwned(s) && n < sb.ninodes && s.ino[n].addrs[NDIRECT] != 0
    ensures Draining(sb, s, WithoutIndirect(s, n), n, 0)
  {
    assert RefOk(sb, s, Direct(n, NDIRECT));
    WithoutIndirectOwned(sb, s, n);
    WithoutIndirectApart(sb, s, n);
  }

  lemma DrainSkip(sb: Super, s: State, v: State, n: nat, j: nat)
    requires Draining(sb, s, v, n, j) && j < NINDIRECT
    requires Word(s.blk[s.ino[n].addrs[NDIRECT]], j) == 0
    ensures Draining(sb, s, v, n, j + 1)
  {
    ZeroUnowned(sb, v);
    var e := EntriesUpTo(s.blk[s.ino[n].addrs[NDIRECT]], j);
    assert v.owner == WithoutIndirect(s, n).owner - (e + {0});
  }

  lemma DrainFree(sb: Super, s: State, v: State, n: nat, j: nat)
    requires Draining(sb, s, v, n, j) && j < NINDIRECT
    requires Word(s.blk[s.ino[n].addrs[NDIRECT]], j) != 0
    ensures sb.IsData(Word(s.blk[s.ino[n].addrs[NDIRECT]], j)) && Marked(sb, v, Word(s.blk[s.ino[n].addrs[NDIRECT]], j))
    ensures Shape(sb, v) && Word(s.blk[s.ino[n].addrs[NDIRECT]], j) as nat in v.owner
    ensures Draining(sb, s, Freed(sb, v, Word(s.blk[s.ino[n].addrs[NDIRECT]], j)), n, j + 1)
  {
    hide Owned, AllOwned, Apart, Marked, Word;
    OwnedShape(sb, v);
    DirectOwned(sb, s, n, NDIRECT);
    var ind := s.ino[n].addrs[NDIRECT];
    var b, e := Word(s.blk[ind], j) as nat, EntriesUpTo(s.blk[ind], j);
    EntryLoose(sb, s, n, j);
    FreedOwned(sb, v, b);
    FreedApart(sb, v, b, n);
    ApartTrans(sb, s, v, Freed(sb, v, b), n);
    assert Freed(sb, v, b).owner == WithoutIndirect(s, n).owner - (e + {b});
  }

  lemma DrainEnd(sb: Super, s: State, v: State, n: nat)
    requires Draining(sb, s, v, n, NINDIRECT)
    ensures sb.IsData(s.ino[n].addrs[NDIRECT]) && Marked(sb, v, s.ino[n].addrs[NDIRECT])
    ensures s.ino[n].addrs[NDIRECT] as nat in v.owner
    ensures
      var t := Freed(sb, v, s.ino[n].addrs[NDIRECT]);
      Owned(sb, t) && AllOwned(t) && Apart(sb, s, t, n) && Shed(s.owner, t.owner, n)
  {
    hide Owned, Apart, Marked, Word, EntriesUpTo;
    OwnedShape(sb, v);
    DirectOwned(sb, s, n, NDIRECT);
    var ind := s.ino[n].addrs[NDIRECT];
    EntryLoose(sb, s, n, 0);
    ForeignEntry(sb, s, n, ind);
    DrainOwners(sb, s, v, n);
    FreedOwned(sb, v, ind);
    FreedApart(sb, v, ind, n);
    ApartTrans(sb, s, v, Freed(sb, v, ind), n);
  }

  /** A block that no entry of `n` owns is not among the entries. */
  lemma ForeignEntry(sb: Super, s: State, n: nat, b: nat)
    requires Owned(sb, s) && n < sb.ninodes && s.ino[n].addrs[NDIRECT] != 0
    requires b in s.owner && !(s.owner[b].Entry? && s.owner[b].inum == n)
    ensures Shape(sb, s) && s.ino[n].addrs[NDIRECT] < |s.blk|
    ensures b !in EntriesUpTo(s.blk[s.ino[n].addrs[NDIRECT]], NINDIRECT)
  {
    hide Word, EntriesUpTo;
    DirectOwned(sb, s, n, NDIRECT);
    var bp := s.blk[s.ino[n].addrs[NDIRECT]];
    EntriesUpToHas(bp, NINDIRECT, b);
    forall k | 0 <= k < NINDIRECT ensures Word(bp, k) != b { EntryOwner(sb, s, n, k, b); }
  }

  lemma EntryOwner(sb: Super, s: State, n: nat, k: nat, b: nat)
    requires Owned(sb, s) && n < sb.ninodes && k < NINDIRECT && 0 < s.ino[n].addrs[NDIRECT] < |s.blk|
    requires b in s.owner && !(s.owner[b].Entry? && s.owner[b].inum == n)
    ensures Word(s.blk[s.ino[n].addrs[NDIRECT]], k) != b
  {
    hide Word;
    assert RefOk(sb, s, Entry(n, k)) && BlockOk(sb, s, b);
  }

  lemma DrainOwners(sb: Super, s: State, v: State, n: nat)
    requires Draining(sb, s, v, n, NINDIRECT)
    ensures
      var t := v.owner - {s.ino[n].addrs[NDIRECT] as nat};
      (forall b :: b in t ==> !t[b].Loose?) && Shed(s.owner, t, n)
  {
    hide Owned, Apart, Word, EntriesUpTo;
    OwnedShape(sb, s);
    DirectOwned(sb, s, n, NDIRECT);
    var ind := s.ino[n].addrs[NDIRECT];
    var t := v.owner - {ind as nat};
    forall b | b in t ensures !t[b].Loose? && t[b] == s.owner[b] {
      AllEntriesFreed(sb, s, n, b);
    }
    forall b | b in s.owner && !IsOf(s.owner[b], n) ensures b in t {
      ForeignEntry(sb, s, n, b);
    }
  }

  lemma ShedTrans(o: map<nat, Ref>, o': map<nat, Ref>, o'': map<nat, Ref>, n: nat)
    requires Shed(o, o', n) && Shed(o', o'', n)
    ensures Shed(o, o'', n)
  {
  }

  // ---- What it logs

  /** The bitmap blocks of the blocks that had an owner in `o` and have none in `p`. */
  ghost function Gone(sb: Super, o: map<nat, Ref>, p: map<nat, Ref>): set<nat> {
    set b | b in o && b !in p :: sb.BBlock(b)
  }

  lemma GoneNone(sb: Super, o: map<nat, Ref>, p: map<nat, Ref>)
    requires o.Keys == p.Keys
    ensures Gone(sb, o, p) == {}
  {
    forall b | b in o ensures b in p { assert b in o.Keys; }
  }

  lemma GoneOne(sb: Super, o: map<nat, Ref>, p: map<nat, Ref>, b: nat)
    requires p.Keys <= o.Keys && b in p
    ensures (p - {b}).Keys <= o.Keys && Gone(sb, o, p - {b}) == Gone(sb, o, p) + {sb.BBlock(b)}
  {
    assert b in p.Keys && b in o && b !in p - {b};
    assert sb.BBlock(b) in Gone(sb, o, p - {b});
    forall c | c in o && c !in p - {b} ensures sb.BBlock(c) in Gone(sb, o, p) + {sb.BBlock(b)} {}
    forall c | c in o && c !in p ensures sb.BBlock(c) in Gone(sb, o, p - {b}) { assert c !in p - {b}; }
  }

  lemma GoneTrans(sb: Super, o: map<nat, Ref>, p: map<nat, Ref>, q: map<nat, Ref>)
    requires q.Keys <= p.Keys <= o.Keys
    ensures q.Keys <= o.Keys && Gone(sb, o, q) == Gone(sb, o, p) + Gone(sb, p, q)
  {
    forall c | c in o && c !in q ensures sb.BBlock(c) in Gone(sb, o, p) + Gone(sb, p, q) {
      assert c in p || c !in p;
    }
    forall c | c in o && c !in p ensures sb.BBlock(c) in Gone(sb, o, q) { assert c !in q.Keys; }
    forall c | c in p && c !in q ensures sb.BBlock(c) in Gone(sb, o, q) { assert c in o.Keys; }
  }

  /** There are no more of them than bitmap blocks. */
  lemma GoneCount(sb: Super, s: State, p: map<nat, Ref>)
    requires Owned(sb, s)
    ensures |Gone(sb, s.owner, p)| <= sb.size / BPB + 1
  {
    var all := Interval(sb.bmapstart, sb.bmapstart + sb.size / BPB + 1);
    forall b | b in s.owner && b !in p ensures sb.BBlock(b) in all { assert BlockOk(sb, s, b); }
    SubsetCount(Gone(sb, s.owner, p), all);
  }
}
