/** Block allocation, inodes and file contents: the middle layers of fs.c, over the block
    map that bread and log_write provide (module Log). */
module Fs {
  import opened Blocks
  import opened Collections
  import opened FsLayout
  import opened FsState
  import opened FsFile
  import opened FsCount
  import opened FsTrunc
  import opened Bio
  import opened Journal

  /** Addresses once set stay; nothing else about the places changes. */
  ghost predicate Keeps(sb: Super, s: State, t: State)
    requires Shape(sb, s) && Shape(sb, t)
  {
    forall r :: Names(sb, r) && AddrOf(sb, s, r) != 0 ==> AddrOf(sb, t, r) == AddrOf(sb, s, r)
  }

  /** Inode blocks are as before, and so is every inode but for the addresses of `n`. */
  ghost predicate OnlyAddrs(sb: Super, s: State, t: State, n: nat)
    requires Shape(sb, s) && Shape(sb, t) && n < sb.ninodes
  {
    && |t.blk| == |s.blk|
    && (forall x :: sb.inodestart <= x < sb.bmapstart ==> t.blk[x] == s.blk[x])
    && t.ino == s.ino[n := s.ino[n].(addrs := t.ino[n].addrs)]
  }

  lemma AllocKeeps(sb: Super, s: State, b: nat)
    requires Owned(sb, s) && sb.IsData(b) && !Marked(sb, s, b)
    ensures Shape(sb, Allocated(sb, s, b)) && Keeps(sb, s, Allocated(sb, s, b))
    ensures forall x :: sb.inodestart <= x < sb.bmapstart ==> Allocated(sb, s, b).blk[x] == s.blk[x]
  {
    var t := Allocated(sb, s, b);
    assert BitOk(sb, s, b);
    forall r | Names(sb, r) && AddrOf(sb, s, r) != 0 ensures AddrOf(sb, t, r) == AddrOf(sb, s, r) {
      if r.Entry? { assert RefOk(sb, s, Direct(r.inum, NDIRECT)); }
    }
  }

  lemma DirectKeeps(sb: Super, s: State, n: nat, i: nat, b: uint32)
    requires Owned(sb, s) && n < sb.ninodes && i <= NDIRECT
    requires b in s.owner && s.owner[b].Loose? && s.blk[b] == ZeroBlock && s.ino[n].addrs[i] == 0
    ensures Keeps(sb, s, WithDirect(s, n, i, b))
  {
    forall r | Names(sb, r) && AddrOf(sb, s, r) != 0 ensures AddrOf(sb, WithDirect(s, n, i, b), r) == AddrOf(sb, s, r) {
      DirectAddrs(sb, s, n, i, b, r);
    }
  }

  lemma AllocEntry(sb: Super, s: State, b: nat, n: nat, j: nat)
    requires Owned(sb, s) && sb.IsData(b) && !Marked(sb, s, b) && n < sb.ninodes && j < NINDIRECT
    ensures Shape(sb, Allocated(sb, s, b))
    ensures AddrOf(sb, Allocated(sb, s, b), Entry(n, j)) == AddrOf(sb, s, Entry(n, j))
  {
    assert BitOk(sb, s, b) && RefOk(sb, s, Direct(n, NDIRECT));
  }

  lemma EntryKeeps(sb: Super, s: State, n: nat, j: nat, b: uint32)
    requires Owned(sb, s) && n < sb.ninodes && j < NINDIRECT
    requires s.ino[n].addrs[NDIRECT] != 0 && AddrOf(sb, s, Entry(n, j)) == 0
    ensures s.ino[n].addrs[NDIRECT] < |s.blk|
    ensures Keeps(sb, s, WithEntry(s, n, j, b))
    ensures forall x :: sb.inodestart <= x < sb.bmapstart ==> WithEntry(s, n, j, b).blk[x] == s.blk[x]
    ensures AddrOf(sb, WithEntry(s, n, j, b), Entry(n, j)) == b
  {
    assert RefOk(sb, s, Direct(n, NDIRECT));
    EntryAddrs(sb, s, n, j, b, Entry(n, j));
    forall r | Names(sb, r) && AddrOf(sb, s, r) != 0 ensures AddrOf(sb, WithEntry(s, n, j, b), r) == AddrOf(sb, s, r) {
      EntryAddrs(sb, s, n, j, b, r);
    }
  }

  lemma PutDataKeeps(sb: Super, s: State, n: nat, k: nat, data: Block)
    requires Owned(sb, s) && n < sb.ninodes && k < MAXFILE && AddrOf(sb, s, BRef(n, k)) != 0
    ensures AddrOf(sb, s, BRef(n, k)) < |s.blk|
    ensures
      var t := s.(blk := s.blk[AddrOf(sb, s, BRef(n, k)) := data]);
      Shape(sb, t) && Keeps(sb, s, t) && OnlyAddrs(sb, s, t, n)
  {
    assert RefOk(sb, s, BRef(n, k));
    var t := s.(blk := s.blk[AddrOf(sb, s, BRef(n, k)) := data]);
    forall r | Names(sb, r) && AddrOf(sb, s, r) != 0 ensures AddrOf(sb, t, r) == AddrOf(sb, s, r) {
      if r.Entry? { assert RefOk(sb, s, Direct(r.inum, NDIRECT)); }
    }
  }

  lemma ChangedAfterSame(sb: Super, s: State, t: State, u: State, n: nat, k: nat, data: Block)
    requires Shape(sb, s) && Shape(sb, t) && Shape(sb, u) && n < sb.ninodes && k < MAXFILE
    requires SameFiles(sb, s, t) && OneBlockChanged(sb, t, u, n, k, data)
    ensures OneBlockChanged(sb, s, u, n, k, data)
  {
  }

  lemma KeepsTrans(sb: Super, s: State, t: State, u: State)
    requires Shape(sb, s) && Shape(sb, t) && Shape(sb, u) && Keeps(sb, s, t) && Keeps(sb, t, u)
    ensures Keeps(sb, s, u)
  {
  }

  /** What mapping a block does: files read as before, addresses only come in new. */
  ghost predicate Grown(sb: Super, s: State, t: State, n: nat) {
    && Shape(sb, s) && Shape(sb, t) && n < sb.ninodes && Owned(sb, t)
    && SameFiles(sb, s, t) && Keeps(sb, s, t) && OnlyAddrs(sb, s, t, n) && (AllOwned(s) ==> AllOwned(t))
  }

  lemma GrownNone(sb: Super, s: State, n: nat)
    requires Owned(sb, s) && n < sb.ninodes
    ensures Grown(sb, s, s, n)
  {
  }

  /** Allocating a block and storing it in the inode. */
  lemma DirectGrown(sb: Super, s: State, n: nat, i: nat, b: uint32)
    requires Owned(sb, s) && n < sb.ninodes && i <= NDIRECT && s.ino[n].addrs[i] == 0
    requires sb.IsData(b) && !Marked(sb, s, b)
    ensures Grown(sb, s, WithDirect(Allocated(sb, s, b), n, i, b), n)
  {
    var t := Allocated(sb, s, b);
    AllocatedOwned(sb, s, b);
    AllocKeeps(sb, s, b);
    WithDirectOwned(sb, t, n, i, b);
    DirectKeeps(sb, t, n, i, b);
    hide RefOk, BlockOk, BitOk;
    KeepsTrans(sb, s, t, WithDirect(t, n, i, b));
  }

  /** Allocating a block and storing it in the indirect block. */
  lemma EntryGrown(sb: Super, s: State, n: nat, j: nat, b: uint32)
    requires Owned(sb, s) && n < sb.ninodes && j < NINDIRECT
    requires s.ino[n].addrs[NDIRECT] != 0 && AddrOf(sb, s, Entry(n, j)) == 0
    requires sb.IsData(b) && !Marked(sb, s, b)
    ensures s.ino[n].addrs[NDIRECT] < |s.blk|
    ensures
      var u := WithEntry(Allocated(sb, s, b), n, j, b);
      Grown(sb, s, u, n) && AddrOf(sb, u, Entry(n, j)) == b && s.ino[n].addrs[NDIRECT] != b
  {
    var t := Allocated(sb, s, b);
    assert RefOk(sb, s, Direct(n, NDIRECT)) && BitOk(sb, s, b);
    AllocatedOwned(sb, s, b);
    AllocKeeps(sb, s, b);
    AllocEntry(sb, s, b, n, j);
    WithEntryOwned(sb, t, n, j, b);
    EntryKeeps(sb, t, n, j, b);
    hide RefOk, BlockOk, BitOk;
    KeepsTrans(sb, s, t, WithEntry(t, n, j, b));
  }

  lemma GrownTrans(sb: Super, s: State, t: State, u: State, n: nat)
    requires Grown(sb, s, t, n) && Grown(sb, t, u, n)
    ensures Grown(sb, s, u, n)
  {
    KeepsTrans(sb, s, t, u);
  }

  lemma GrownAddr(sb: Super, s: State, t: State, n: nat, bn: nat)
    requires Grown(sb, s, t, n) && bn < MAXFILE
    ensures Owned(sb, t) && Shape(sb, t) && n < sb.ninodes && AddrOf(sb, t, BRef(n, bn)) < |t.blk|
    ensures AddrOf(sb, t, BRef(n, bn)) != 0 ==> sb.IsData(AddrOf(sb, t, BRef(n, bn)))
  {
    assert RefOk(sb, t, BRef(n, bn));
  }

  lemma GrownKeeps(sb: Super, s: State, t: State, n: nat, r: Ref)
    requires Grown(sb, s, t, n) && Names(sb, r)
    ensures AddrOf(sb, s, r) != 0 ==> AddrOf(sb, t, r) == AddrOf(sb, s, r)
  {
  }

  /** What one block write of writei does. */
  ghost predicate Written(sb: Super, s: State, t: State, n: nat, o: nat, part: seq<byte>) {
    && Shape(sb, s) && Shape(sb, t) && n < sb.ninodes && o + |part| <= MAXBYTES && Owned(sb, t)
    && BytesWritten(sb, s, t, n, o, part) && Keeps(sb, s, t) && OnlyAddrs(sb, s, t, n) && (AllOwned(s) ==> AllOwned(t))
  }

  lemma WriteStepDone(sb: Super, s: State, t: State, n: nat, o: nat, part: seq<byte>, data: Block)
    requires Grown(sb, s, t, n) && o % BSIZE + |part| <= BSIZE && o / BSIZE < MAXFILE && o + |part| <= MAXBYTES
    requires AddrOf(sb, t, BRef(n, o / BSIZE)) != 0
    requires
      var was := FileBlock(sb, t, n, o / BSIZE);
      data == was[..o % BSIZE] + part + was[o % BSIZE + |part|..]
    ensures AddrOf(sb, t, BRef(n, o / BSIZE)) < |t.blk|
    ensures
      var u := t.(blk := t.blk[AddrOf(sb, t, BRef(n, o / BSIZE)) := data]);
      Written(sb, s, u, n, o, part) && BnMapped(sb, u, n, o / BSIZE)
  {
    var k := o / BSIZE;
    PutDataOwned(sb, t, n, k, data);
    PutDataKeeps(sb, t, n, k, data);
    var u := t.(blk := t.blk[AddrOf(sb, t, BRef(n, k)) := data]);
    hide RefOk, BlockOk, BitOk;
    ChangedAfterSame(sb, s, t, u, n, k, data);
    WroteBlock(sb, s, u, n, o, part, data);
    KeepsTrans(sb, s, t, u);
  }

  ghost function IndSet(ip: Inode): set<nat>
    requires ip.Ok()
  {
    if ip.addrs[NDIRECT] == 0 then {} else {ip.addrs[NDIRECT] as nat}
  }

  /** The inode on disk is the inode in memory. */
  ghost predicate Synced(sb: Super, s: State, n: nat)
    requires Shape(sb, s) && n < sb.ninodes
  {
    Slot(s.blk[sb.IBlock(n)], n % IPB) == Encode(s.ino[n])
  }

  /** The inodes as ilock would read them from the disk. */
  function Decoded(sb: Super, d: seq<Block>): seq<Inode>
    requires sb.Ok(|d|)
  {
    seq(sb.ninodes, n requires 0 <= n < sb.ninodes => Decode(Slot(d[sb.IBlock(n)], n % IPB)))
  }

  lemma SyncedDecoded(sb: Super, s: State)
    requires Shape(sb, s) && forall n: nat :: n < sb.ninodes ==> Synced(sb, s, n)
    ensures Decoded(sb, s.blk) == s.ino
  {
    forall n: nat | n < sb.ninodes ensures Decoded(sb, s.blk)[n] == s.ino[n] {
      assert Synced(sb, s, n);
      DecodeEncode(s.ino[n]);
    }
  }

  // ---- The loop of writei

  function Max(a: nat, b: nat): nat { if a < b then b else a }

  /** How many blocks the bytes from `off` up to `o` lie in. */
  function Spans(off: nat, o: nat): nat {
    if o <= off then 0 else (o - 1) / BSIZE - off / BSIZE + 1
  }

  /** The first block after those. */
  function UpTo(off: nat, o: nat): nat { off / BSIZE + Spans(off, o) }

  lemma UpToStep(off: nat, o: nat, m: nat)
    requires off <= o && (o == off || o % BSIZE == 0) && 0 < m && o % BSIZE + m <= BSIZE
    ensures UpTo(off, o) == o / BSIZE && UpTo(off, o + m) == o / BSIZE + 1
  {
    if off < o { assert (o - 1) / BSIZE + 1 == o / BSIZE; }
    assert (o + m - 1) / BSIZE == o / BSIZE;
  }

  lemma UpToMonotone(off: nat, o: nat, p: nat)
    requires off <= o <= p <= MAXBYTES
    ensures UpTo(off, o) <= UpTo(off, p) <= MAXFILE
  {
  }

  lemma UpToSplit(off: nat, o: nat, p: nat)
    requires off <= o < p <= MAXBYTES
    ensures UpTo(o, p) == UpTo(off, p) <= MAXFILE && off / BSIZE <= o / BSIZE <= UpTo(off, o) <= UpTo(off, p)
  {
  }

  /** The blocks that have to be allocated for `cnt` bytes at `off` of file `n`. */
  ghost function Cost(sb: Super, s: State, n: nat, off: nat, cnt: nat): nat
    requires Shape(sb, s) && n < sb.ninodes && off + cnt <= MAXBYTES
  {
    UpToMonotone(off, off, off + cnt);
    Need(sb, s, n, off / BSIZE, UpTo(off, off + cnt))
  }

  /** A file without holes needs no blocks for a write that stays inside it. */
  lemma InsideCostsNothing(sb: Super, s: State, n: nat, off: nat, cnt: nat)
    requires Shape(sb, s) && n < sb.ninodes && FileOk(sb, s, n) && off + cnt <= s.ino[n].size
    ensures Cost(sb, s, n, off, cnt) == 0
  {
    UpToMonotone(off, off, off + cnt);
    forall bn | off / BSIZE <= bn < UpTo(off, off + cnt) ensures AddrOf(sb, s, BRef(n, bn)) != 0 {
      assert bn * BSIZE < s.ino[n].size;
      assert BnMapped(sb, s, n, bn);
    }
    NoHoles(sb, s, n, off / BSIZE, UpTo(off, off + cnt));
  }

  lemma RangeStart(sb: Super, s: State, n: nat, off: nat, cnt: nat)
    requires Owned(sb, s) && n < sb.ninodes && off + cnt <= MAXBYTES
    ensures UpTo(off, off + cnt) <= MAXFILE && RangeMap(sb, s, s, n, off / BSIZE, UpTo(off, off))
  {
    UpToMonotone(off, off, off + cnt);
    RangeNone(sb, s, n, off / BSIZE);
  }

  /** When the next block cannot be had, the whole write could not. */
  lemma TurnFails(sb: Super, s: State, t: State, n: nat, lo: nat, k: nat, hi: nat)
    requires RangeMap(sb, s, t, n, lo, k) && k < hi <= MAXFILE && |FreeSet(sb, t)| < NeedOne(sb, t, n, k)
    ensures |FreeSet(sb, s)| < Need(sb, s, n, lo, hi)
  {
    RangeCost(sb, s, t, n, lo, k);
    NeedGrows(sb, s, n, lo, k + 1, hi);
  }

  /** After the bytes `part` were written from `off` on. */
  ghost predicate Progress(sb: Super, s: State, t: State, n: nat, off: nat, part: seq<byte>) {
    && Written(sb, s, t, n, off, part)
    && s.ino[n].size <= MAXBYTES
    && Mapped(sb, t, n, Max(off + |part|, s.ino[n].size))
    && (t.ino == s.ino || off + |part| > s.ino[n].size)
  }

  lemma ProgressStart(sb: Super, s: State, n: nat, off: nat)
    requires Owned(sb, s) && n < sb.ninodes && FileOk(sb, s, n) && off <= s.ino[n].size
    ensures Progress(sb, s, s, n, off, [])
  {
    WroteNothing(sb, s, s, n, off);
  }

  lemma WrittenTrans(sb: Super, s: State, t: State, u: State, n: nat, o: nat, p: seq<byte>, q: seq<byte>)
    requires Written(sb, s, t, n, o, p) && Written(sb, t, u, n, o + |p|, q)
    ensures Written(sb, s, u, n, o, p + q)
  {
    hide Owned, BytesWritten;
    WroteBoth(sb, s, t, u, n, o, p, q);
    KeepsTrans(sb, s, t, u);
  }

  lemma StillMapped(sb: Super, s: State, t: State, n: nat, bn: nat)
    requires Shape(sb, s) && Shape(sb, t) && n < sb.ninodes && Keeps(sb, s, t) && BnMapped(sb, s, n, bn)
    ensures BnMapped(sb, t, n, bn)
  {
  }

  lemma ProgressStep(sb: Super, s: State, t: State, u: State, n: nat, off: nat, done: seq<byte>, part: seq<byte>)
    requires Progress(sb, s, t, n, off, done)
    requires 0 < |part| && (off + |done|) % BSIZE + |part| <= BSIZE && off + |done| + |part| <= MAXBYTES
    requires Written(sb, t, u, n, off + |done|, part) && BnMapped(sb, u, n, (off + |done|) / BSIZE)
    requires BnMapped(sb, t, n, (off + |done|) / BSIZE) ==> u.ino == t.ino
    ensures Progress(sb, s, u, n, off, done + part)
  {
    hide Owned, BytesWritten, BnMapped;
    WrittenTrans(sb, s, t, u, n, off, done, part);
    var o, size := off + |done|, s.ino[n].size;
    forall bn: nat | bn * BSIZE < Max(o + |part|, size) ensures BnMapped(sb, u, n, bn) {
      if bn * BSIZE < Max(o, size) {
        assert BnMapped(sb, t, n, bn);
        StillMapped(sb, t, u, n, bn);
      } else {
        assert bn == o / BSIZE;
      }
    }
    if !BnMapped(sb, t, n, o / BSIZE) {
      assert o / BSIZE * BSIZE >= Max(o, size);
    }
  }

  /** What has been logged: a data block for each block spanned, a bitmap block for each
      block allocated, and the indirect block. A block in which the write starts in the
      middle was mapped before. */
  ghost predicate Tally(s: Inode, t: Inode, off: nat, o: nat, maps: set<nat>, datas: set<nat>, lg: set<nat>,
                        lg': set<nat>) {
    && s.Ok() && t.Ok() && (s.addrs[NDIRECT] != 0 ==> t.addrs[NDIRECT] == s.addrs[NDIRECT])
    && lg' <= lg + maps + datas + IndSet(t)
    && |datas| <= Spans(off, o)
    && |maps| <= Spans(off, o) - (if off % BSIZE != 0 && off < o then 1 else 0) + NewInd(s, t)
  }

  function NewInd(s: Inode, t: Inode): nat
    requires s.Ok() && t.Ok()
  {
    if s.addrs[NDIRECT] == 0 && t.addrs[NDIRECT] != 0 then 1 else 0
  }

  lemma TallyStart(ip: Inode, off: nat, lg: set<nat>)
    requires ip.Ok()
    ensures Tally(ip, ip, off, off, {}, {}, lg, lg)
  {
  }

  lemma SpansStep(off: nat, o: nat, m: nat)
    requires off <= o && (o == off || o % BSIZE == 0) && 0 < m && o % BSIZE + m <= BSIZE
    ensures Spans(off, o + m) == Spans(off, o) + 1
  {
  }

  lemma TallyStep(s: Inode, t: Inode, u: Inode, off: nat, o: nat, m: nat, maps: set<nat>, datas: set<nat>,
                  lg: set<nat>, lg': set<nat>, lg'': set<nat>, more: set<nat>, addr: nat)
    requires Tally(s, t, off, o, maps, datas, lg, lg') && u.Ok()
    requires off <= o && (o == off || o % BSIZE == 0) && 0 < m && o % BSIZE + m <= BSIZE
    requires t.addrs[NDIRECT] != 0 ==> u.addrs[NDIRECT] == t.addrs[NDIRECT]
    requires lg'' <= lg' + more + {addr} + IndSet(u) && |more| <= 1 + NewInd(t, u)
    requires o == off && off % BSIZE != 0 ==> more == {} && u == t
    ensures Tally(s, u, off, o + m, maps + more, datas + {addr}, lg, lg'')
  {
    SpansStep(off, o, m);
    UnionCount(maps, more);
    UnionCount(datas, {addr});
  }

  lemma PutInodeAddrs(sb: Super, s: State, x: nat, data: Block)
    requires Owned(sb, s) && sb.inodestart <= x < sb.bmapstart
    ensures Shape(sb, s.(blk := s.blk[x := data]))
    ensures forall r :: Names(sb, r) ==> AddrOf(sb, s.(blk := s.blk[x := data]), r) == AddrOf(sb, s, r)
  {
    var t := s.(blk := s.blk[x := data]);
    forall r | Names(sb, r) ensures AddrOf(sb, t, r) == AddrOf(sb, s, r) {
      if r.Entry? { assert RefOk(sb, s, Direct(r.inum, NDIRECT)); }
    }
  }

  lemma ProgressFacts(sb: Super, s: State, t: State, n: nat, off: nat, part: seq<byte>)
    requires Progress(sb, s, t, n, off, part)
    ensures Owned(sb, t) && Shape(sb, s) && Shape(sb, t) && n < sb.ninodes && t.ino[n].size == s.ino[n].size
    ensures off % BSIZE != 0 && part == [] && off <= s.ino[n].size ==> BnMapped(sb, t, n, off / BSIZE)
  {
    if off % BSIZE != 0 && part == [] && off <= s.ino[n].size {
      assert off / BSIZE * BSIZE < Max(off + |part|, s.ino[n].size);
    }
  }

  /** One iteration, for both invariants of the loop. */
  lemma StepDone(sb: Super, s: State, t: State, u: State, n: nat, off: nat, tot: nat, m: nat, src: seq<byte>,
                 maps: set<nat>, datas: set<nat>, lg: set<nat>, lg': set<nat>, lg'': set<nat>,
                 more: set<nat>, addr: nat)
    requires tot < |src| && 0 < m && tot + m <= |src| && off + |src| <= MAXBYTES
    requires tot == 0 || (off + tot) % BSIZE == 0
    requires (off + tot) % BSIZE + m <= BSIZE
    requires Progress(sb, s, t, n, off, src[..tot]) && off <= s.ino[n].size
    requires Tally(s.ino[n], t.ino[n], off, off + tot, maps, datas, lg, lg')
    requires Written(sb, t, u, n, off + tot, src[tot..tot + m]) && BnMapped(sb, u, n, (off + tot) / BSIZE)
    requires BnMapped(sb, t, n, (off + tot) / BSIZE) ==> u.ino == t.ino && more == {}
    requires lg'' <= lg' + more + {addr} + IndSet(u.ino[n])
    requires |more| <= 1 + NewInd(t.ino[n], u.ino[n])
    ensures Progress(sb, s, u, n, off, src[..tot + m])
    ensures Tally(s.ino[n], u.ino[n], off, off + tot + m, maps + more, datas + {addr}, lg, lg'')
  {
    hide Progress, Written, BnMapped, Tally, Owned;
    ProgressFacts(sb, s, t, n, off, src[..tot]);
    DirectStays(sb, t, u, n, off + tot, src[tot..tot + m]);
    ProgressStep(sb, s, t, u, n, off, src[..tot], src[tot..tot + m]);
    assert src[..tot] + src[tot..tot + m] == src[..tot + m];
    TallyStep(s.ino[n], t.ino[n], u.ino[n], off, off + tot, m, maps, datas, lg, lg', lg'', more, addr);
  }

  lemma DirectStays(sb: Super, t: State, u: State, n: nat, o: nat, part: seq<byte>)
    requires Written(sb, t, u, n, o, part)
    ensures Shape(sb, t) && Shape(sb, u) && n < sb.ninodes
    ensures t.ino[n].addrs[NDIRECT] != 0 ==> u.ino[n].addrs[NDIRECT] == t.ino[n].addrs[NDIRECT]
  {
    hide Owned, BytesWritten, OnlyAddrs;
    assert Names(sb, Direct(n, NDIRECT));
    assert AddrOf(sb, t, Direct(n, NDIRECT)) == t.ino[n].addrs[NDIRECT];
  }

  // ---- Whole operations

  ghost predicate InodeOk(sb: Super, s: State, n: nat)
    requires Shape(sb, s) && n < sb.ninodes
  {
    FileOk(sb, s, n) && Synced(sb, s, n)
  }

  /** What holds between operations: blocks have unique owners and the free map is exact, no
      file has a hole, and every inode on disk is the one in memory. */
  ghost predicate Healthy(sb: Super, s: State) {
    Owned(sb, s) && AllOwned(s) && forall n: nat :: n < sb.ninodes ==> InodeOk(sb, s, n)
  }

  /** File `n` reads as spliced, every other file and inode is as it was. */
  ghost predicate Spliced(sb: Super, s: State, u: State, n: nat, off: nat, src: seq<byte>)
    requires Healthy(sb, s) && n < sb.ninodes && off <= s.ino[n].size
  {
    && Healthy(sb, u)
    && FileIs(sb, u, n, Splice(ContentOf(sb, s, n), off, src))
    && u.ino[n] == s.ino[n].(size := u.ino[n].size, addrs := u.ino[n].addrs)
    && forall m: nat :: m < sb.ninodes && m != n ==> u.ino[m] == s.ino[m] && FileIs(sb, u, m, ContentOf(sb, s, m))
  }

  ghost predicate FileIs(sb: Super, s: State, n: nat, c: seq<byte>)
    requires Healthy(sb, s) && n < sb.ninodes
  {
    ContentOf(sb, s, n) == c
  }

  ghost function ContentOf(sb: Super, s: State, n: nat): (c: seq<byte>)
    requires Healthy(sb, s) && n < sb.ninodes
    ensures |c| == s.ino[n].size
  {
    assert InodeOk(sb, s, n);
    Content(sb, s, n)
  }

  lemma KeepsMapped(sb: Super, s: State, t: State, n: nat, k: nat)
    requires Shape(sb, s) && Shape(sb, t) && n < sb.ninodes && k <= MAXBYTES && Keeps(sb, s, t) && Mapped(sb, s, n, k)
    ensures Mapped(sb, t, n, k)
  {
    forall bn: nat | bn * BSIZE < k ensures BnMapped(sb, t, n, bn) {
      assert BnMapped(sb, s, n, bn);
      StillMapped(sb, s, t, n, bn);
    }
  }

  /** Another file's inode is not disturbed by a write. */
  lemma OtherInodeOk(sb: Super, s: State, t: State, n: nat, m: nat)
    requires Shape(sb, s) && Shape(sb, t) && n < sb.ninodes && Keeps(sb, s, t) && OnlyAddrs(sb, s, t, n)
    requires m < sb.ninodes && InodeOk(sb, s, m) && t.ino[m] == s.ino[m]
    ensures InodeOk(sb, t, m)
  {
    KeepsMapped(sb, s, t, m, s.ino[m].size);
  }

  /** writei, when the file did not grow: no address can have been added. */
  lemma WriteInside(sb: Super, s: State, t: State, n: nat, off: nat, src: seq<byte>)
    requires Healthy(sb, s) && n < sb.ninodes && off <= s.ino[n].size && Progress(sb, s, t, n, off, src)
    requires off + |src| <= s.ino[n].size
    ensures Spliced(sb, s, t, n, off, src)
  {
    forall m: nat | m < sb.ninodes ensures InodeOk(sb, t, m) {
      assert InodeOk(sb, s, m);
      hide InodeOk, Owned, BytesWritten, Mapped;
      OtherInodeOk(sb, s, t, n, m);
    }
    assert InodeOk(sb, s, n);
    WroteContent(sb, s, t, n, off, src);
    forall m: nat | m < sb.ninodes && m != n ensures FileIs(sb, t, m, ContentOf(sb, s, m)) {
      assert InodeOk(sb, s, m);
      OtherContent(sb, s, t, n, off, src, m);
    }
  }

  ghost function SetSize(s: State, n: nat, size: uint32): State
    requires n < |s.ino|
  {
    s.(ino := s.ino[n := s.ino[n].(size := size)])
  }

  ghost predicate SameAddrs(sb: Super, s: State, t: State)
    requires Shape(sb, s) && Shape(sb, t)
  {
    forall r :: Names(sb, r) ==> AddrOf(sb, t, r) == AddrOf(sb, s, r)
  }

  lemma SetSizeOwned(sb: Super, s: State, n: nat, size: uint32)
    requires Owned(sb, s) && n < sb.ninodes
    ensures Owned(sb, SetSize(s, n, size)) && SameFiles(sb, s, SetSize(s, n, size))
    ensures SameAddrs(sb, s, SetSize(s, n, size))
  {
    var t := SetSize(s, n, size);
    forall r | Names(sb, r) ensures AddrOf(sb, t, r) == AddrOf(sb, s, r) && RefOk(sb, t, r) {
      assert RefOk(sb, s, r);
    }
    forall c | c in t.owner ensures BlockOk(sb, t, c) { assert BlockOk(sb, s, c); }
    forall c: nat | c < sb.size ensures BitOk(sb, t, c) { assert BitOk(sb, s, c); }
  }

  /** Everything that iupdate does to a state. */
  ghost predicate Updated(sb: Super, t: State, u: State, n: nat) {
    && Shape(sb, t) && Shape(sb, u) && n < sb.ninodes
    && Owned(sb, u) && u.ino == t.ino && u.owner == t.owner
    && SameFiles(sb, t, u) && SameAddrs(sb, t, u) && Synced(sb, u, n)
    && forall m: nat :: m < sb.ninodes && Synced(sb, t, m) ==> Synced(sb, u, m)
  }

  /** The state after iupdate: the inode block gets the in-memory inode. */
  ghost function InodeStored(sb: Super, s: State, n: nat): State
    requires Shape(sb, s) && n < sb.ninodes
  {
    s.(blk := s.blk[sb.IBlock(n) := PutSlot(s.blk[sb.IBlock(n)], n % IPB, Encode(s.ino[n]))])
  }

  lemma InodeStoredIs(sb: Super, s: State, n: nat)
    requires Owned(sb, s) && n < sb.ninodes
    ensures Updated(sb, s, InodeStored(sb, s, n), n)
  {
    var x, t := sb.IBlock(n), InodeStored(sb, s, n);
    PutInodeOwned(sb, s, x, t.blk[x]);
    PutInodeAddrs(sb, s, x, t.blk[x]);
    forall m: nat | m < sb.ninodes && m != n && Synced(sb, s, m) ensures Synced(sb, t, m) {
      assert sb.IBlock(m) == x ==> m % IPB != n % IPB;
    }
  }

  /** A range that was mapped was paid for. */
  lemma RangePaid(sb: Super, s: State, t: State, n: nat, lo: nat, k: nat)
    requires RangeMap(sb, s, t, n, lo, k)
    ensures |FreeSet(sb, s)| >= Need(sb, s, n, lo, k)
  {
  }

  /** The new size and the inode block leave the mapping as it is. */
  lemma RangeThenUpdate(sb: Super, s: State, t: State, u: State, n: nat, lo: nat, k: nat, size: uint32)
    requires RangeMap(sb, s, t, n, lo, k) && Owned(sb, t) && Updated(sb, SetSize(t, n, size), u, n)
    ensures RangeMap(sb, s, u, n, lo, k)
  {
    SetSizeOwned(sb, t, n, size);
    forall r | Names(sb, r) ensures Stays(sb, t, u, r) {
      assert AddrOf(sb, SetSize(t, n, size), r) == AddrOf(sb, t, r);
    }
    hide Updated, Owned, SetSize;
    SameRange(sb, s, t, u, n, lo, k);
  }

  lemma WrittenThenSame(sb: Super, s: State, t: State, u: State, n: nat, o: nat, src: seq<byte>)
    requires Shape(sb, s) && Shape(sb, t) && Shape(sb, u) && n < sb.ninodes && o + |src| <= MAXBYTES
    requires BytesWritten(sb, s, t, n, o, src) && SameFiles(sb, t, u)
    ensures BytesWritten(sb, s, u, n, o, src)
  {
    WroteNothing(sb, t, u, n, o + |src|);
    WroteBoth(sb, s, t, u, n, o, src, []);
    assert src + [] == src;
  }

  lemma SameAddrsMapped(sb: Super, t: State, u: State, n: nat, k: nat)
    requires Shape(sb, t) && Shape(sb, u) && n < sb.ninodes
    requires k <= MAXBYTES && SameAddrs(sb, t, u) && Mapped(sb, t, n, k)
    ensures Mapped(sb, u, n, k)
  {
    forall bn: nat | bn * BSIZE < k ensures BnMapped(sb, u, n, bn) { assert BnMapped(sb, t, n, bn); }
  }

  lemma {:induction false} SameBytes(sb: Super, s: State, u: State, n: nat, k: nat)
    requires Shape(sb, s) && Shape(sb, u) && n < sb.ninodes && k <= MAXBYTES && SameFiles(sb, s, u)
    ensures Bytes(sb, u, n, k) == Bytes(sb, s, n, k)
  {
    if k > 0 {
      SameBytes(sb, s, u, n, k - 1);
      assert FileBlock(sb, u, n, (k - 1) / BSIZE) == FileBlock(sb, s, n, (k - 1) / BSIZE);
    }
  }

  lemma OtherInodeOkUpdated(sb: Super, t: State, u: State, n: nat, m: nat)
    requires Updated(sb, t, u, n) && m < sb.ninodes && InodeOk(sb, t, m)
    ensures InodeOk(sb, u, m)
  {
    SameAddrsMapped(sb, t, u, m, t.ino[m].size);
  }

  lemma BeyondInode(sb: Super, s: State, t: State, u: State, n: nat, off: nat, src: seq<byte>, m: nat)
    requires Healthy(sb, s) && n < sb.ninodes && Progress(sb, s, t, n, off, src) && m < sb.ninodes
    requires off + |src| >= s.ino[n].size && Updated(sb, SetSize(t, n, off + |src|), u, n)
    ensures InodeOk(sb, u, m)
  {
    var t1 := SetSize(t, n, off + |src|);
    SetSizeOwned(sb, t, n, off + |src|);
    hide RefOk, BlockOk, BitOk, BytesWritten, SameFiles;
    if m == n {
      SameAddrsMapped(sb, t, t1, n, off + |src|);
      SameAddrsMapped(sb, t1, u, n, off + |src|);
    } else {
      assert InodeOk(sb, s, m);
      OtherInodeOk(sb, s, t, n, m);
      SameAddrsMapped(sb, t, t1, m, t.ino[m].size);
      OtherInodeOkUpdated(sb, t1, u, n, m);
    }
  }

  lemma BeyondBytes(sb: Super, s: State, t: State, u: State, n: nat, off: nat, src: seq<byte>)
    requires Progress(sb, s, t, n, off, src) && off + |src| < 0x1_0000_0000
    requires Updated(sb, SetSize(t, n, off + |src|), u, n)
    ensures Shape(sb, u) && BytesWritten(sb, s, u, n, off, src)
  {
    var t1 := SetSize(t, n, off + |src|);
    SetSizeOwned(sb, t, n, off + |src|);
    WrittenThenSame(sb, s, t, t1, n, off, src);
    WrittenThenSame(sb, s, t1, u, n, off, src);
  }

  /** writei, when the file grew: iupdate stores every address that bmap added. */
  lemma WriteBeyond(sb: Super, s: State, t: State, u: State, n: nat, off: nat, src: seq<byte>)
    requires Healthy(sb, s) && n < sb.ninodes && off <= s.ino[n].size && Progress(sb, s, t, n, off, src)
    requires off + |src| >= s.ino[n].size && Updated(sb, SetSize(t, n, off + |src|), u, n)
    ensures Spliced(sb, s, u, n, off, src)
  {
    BeyondBytes(sb, s, t, u, n, off, src);
    hide RefOk, BlockOk, BitOk, Mapped, BytesWritten, SameFiles, SameAddrs, Keeps, Synced;
    forall m: nat | m < sb.ninodes ensures InodeOk(sb, u, m) {
      BeyondInode(sb, s, t, u, n, off, src, m);
    }
    assert InodeOk(sb, s, n);
    WroteContent(sb, s, u, n, off, src);
    forall m: nat | m < sb.ninodes && m != n ensures FileIs(sb, u, m, ContentOf(sb, s, m)) {
      assert InodeOk(sb, s, m);
      OtherContent(sb, s, u, n, off, src, m);
    }
  }

  const T_DEV: int := 3
  const NDEV: nat := 10

  datatype Option<T> = None | Some(value: T)

  /** What a device inode's read or write returns; the drivers' own results are given. A
      negative major number is a large one here. */
  function DeviceResult(ip: Inode, devsw: seq<Option<int>>): int
    requires |devsw| == NDEV
  {
    if ip.major >= NDEV || devsw[ip.major].None? then -1 else devsw[ip.major].value
  }

  /** The range checks of writei, in 32-bit arithmetic. */
  predicate Refused(size: uint32, off: uint32, n: uint32) {
    var end := (off + n) % 0x1_0000_0000;
    off > size || end < off || end > MAXBYTES
  }

  /** Exactly the writes that start inside the file and end inside its largest size pass. */
  lemma RefusedMeans(size: uint32, off: uint32, n: uint32)
    ensures !Refused(size, off, n) <==> off <= size && off + n <= MAXBYTES
  {
  }

  /** All that one writei may log: at most two blocks per block spanned (less one if it starts
      inside a block), an indirect block with its bitmap block, and the inode. */
  function LogBound(off: nat, o: nat): nat {
    if off < o then 2 * Spans(off, o) + (if off % BSIZE != 0 then 2 else 3) else 0
  }

  lemma TallyLogged(s: Inode, t: Inode, off: nat, o: nat, maps: set<nat>, datas: set<nat>, lg: set<nat>, lg': set<nat>)
    requires Tally(s, t, off, o, maps, datas, lg, lg')
    ensures lg' <= lg + maps + datas + IndSet(t)
  {
  }

  lemma TallyBound(s: Inode, t: Inode, off: nat, o: nat, maps: set<nat>, datas: set<nat>, lg: set<nat>,
                   lg': set<nat>, x: nat)
    requires Tally(s, t, off, o, maps, datas, lg, lg') && off < o
    ensures |maps + datas + IndSet(t) + {x}| <= LogBound(off, o) && |maps + datas + IndSet(t)| < LogBound(off, o)
  {
    UnionCount(maps, datas);
    UnionCount(maps + datas, IndSet(t));
    UnionCount(maps + datas + IndSet(t), {x});
  }

  /** What comes of a write that passes the checks: it goes through exactly when there are free
      blocks for the holes it fills, and then the bytes are in the file. */
  ghost predicate WriteDone(sb: Super, s: State, t: State, n: nat, off: nat, src: seq<byte>, r: Outcome<int>)
    requires Healthy(sb, s) && n < sb.ninodes && off <= s.ino[n].size && off + |src| <= MAXBYTES
  {
    && (r.Ok? <==> |FreeSet(sb, s)| >= Cost(sb, s, n, off, |src|))
    && (r.Ok? ==> r.value == |src| && Spliced(sb, s, t, n, off, src))
    && (r.Ok? ==> RangeMap(sb, s, t, n, off / BSIZE, UpTo(off, off + |src|)))
  }

  lemma HealthyOwned(sb: Super, s: State)
    requires Healthy(sb, s)
    ensures Owned(sb, s) && AllOwned(s) && Shape(sb, s)
  {
  }

  lemma HealthyFile(sb: Super, s: State, n: nat)
    requires Healthy(sb, s) && n < sb.ninodes
    ensures Owned(sb, s) && Shape(sb, s) && FileOk(sb, s, n) && s.ino[n].size <= MAXBYTES
  {
    assert InodeOk(sb, s, n);
  }

  /** A write that stays inside the file always goes through. */
  lemma InsideGoes(sb: Super, s: State, t: State, n: nat, off: nat, src: seq<byte>, r: Outcome<int>)
    requires Healthy(sb, s) && n < sb.ninodes && off + |src| <= s.ino[n].size
    requires off + |src| <= MAXBYTES && WriteDone(sb, s, t, n, off, src, r)
    ensures r.Ok?
  {
    assert InodeOk(sb, s, n);
    InsideCostsNothing(sb, s, n, off, |src|);
  }

  /** After itrunc: file `n` is empty and owns nothing; exactly its blocks are free now; every
      other file and inode is as it was. */
  ghost predicate Truncated(sb: Super, s: State, u: State, n: nat)
    requires Healthy(sb, s) && n < sb.ninodes
  {
    && Healthy(sb, u)
    && u.ino[n].size == 0 && (forall k :: 0 <= k <= NDIRECT ==> u.ino[n].addrs[k] == 0)
    && u.ino[n] == s.ino[n].(size := 0, addrs := u.ino[n].addrs)
    && (forall b :: b in u.owner <==> b in s.owner && !IsOf(s.owner[b], n))
    && (forall m: nat :: m < sb.ninodes && m != n ==> u.ino[m] == s.ino[m] && FileIs(sb, u, m, ContentOf(sb, s, m)))
  }

  lemma TruncInode(sb: Super, s: State, t: State, u: State, n: nat, m: nat)
    requires Healthy(sb, s) && n < sb.ninodes && Apart(sb, s, t, n)
    requires Updated(sb, SetSize(t, n, 0), u, n) && m < sb.ninodes
    ensures InodeOk(sb, u, m)
  {
    if m != n {
      assert InodeOk(sb, s, m);
      forall bn: nat | bn * BSIZE < s.ino[m].size ensures BnMapped(sb, u, m, bn) {
        assert BnMapped(sb, s, m, bn);
        assert AddrStays(sb, s, t, n, BRef(m, bn));
        assert AddrOf(sb, SetSize(t, n, 0), BRef(m, bn)) == AddrOf(sb, t, BRef(m, bn));
      }
      assert Synced(sb, SetSize(t, n, 0), m);
    }
  }

  lemma TruncContent(sb: Super, s: State, t: State, u: State, n: nat, m: nat)
    requires n < sb.ninodes && Apart(sb, s, t, n) && Updated(sb, SetSize(t, n, 0), u, n) && m < sb.ninodes && m != n
    requires s.ino[m].size <= MAXBYTES
    ensures u.ino[m] == s.ino[m] && Content(sb, u, m) == Content(sb, s, m)
  {
    forall i | 0 <= i < s.ino[m].size ensures Content(sb, u, m)[i] == Content(sb, s, m)[i] {
      assert FileBlock(sb, SetSize(t, n, 0), m, i / BSIZE) == FileBlock(sb, t, m, i / BSIZE);
      BytesAt(sb, u, m, u.ino[m].size, i);
      BytesAt(sb, s, m, s.ino[m].size, i);
    }
  }

  lemma NothingOwned(sb: Super, s: State, n: nat, b: nat)
    requires Owned(sb, s) && n < sb.ninodes && b in s.owner
    requires forall k :: 0 <= k <= NDIRECT ==> s.ino[n].addrs[k] == 0
    ensures !IsOf(s.owner[b], n)
  {
    assert BlockOk(sb, s, b);
  }

  lemma TruncDone(sb: Super, s: State, t: State, u: State, n: nat)
    requires Healthy(sb, s) && n < sb.ninodes && Owned(sb, t) && AllOwned(t)
    requires Apart(sb, s, t, n) && Shed(s.owner, t.owner, n) && Updated(sb, SetSize(t, n, 0), u, n)
    requires t.ino[n] == s.ino[n].(addrs := t.ino[n].addrs) && forall k :: 0 <= k <= NDIRECT ==> t.ino[n].addrs[k] == 0
    ensures Truncated(sb, s, u, n)
  {
    forall b | b in u.owner ensures !IsOf(u.owner[b], n) { NothingOwned(sb, u, n, b); }
    hide RefOk, BlockOk, BitOk, AddrStays, OthersSame, SameFiles, SameAddrs, Synced;
    forall m: nat | m < sb.ninodes ensures InodeOk(sb, u, m) { TruncInode(sb, s, t, u, n, m); }
    forall m: nat | m < sb.ninodes && m != n ensures FileIs(sb, u, m, ContentOf(sb, s, m)) {
      assert InodeOk(sb, s, m);
      TruncContent(sb, s, t, u, n, m);
    }
  }

  lemma NoneFree(sb: Super, s: State)
    requires Owned(sb, s)
    ensures FreeSet(sb, s) == {} <==> forall c: nat :: c < sb.size ==> Marked(sb, s, c)
  {
    forall c: nat | c < sb.size ensures c in FreeSet(sb, s) <==> !Marked(sb, s, c) { FreeMeans(sb, s, c); }
    hide Marked;
    if FreeSet(sb, s) != {} {
      var c :| c in FreeSet(sb, s);
      assert !Marked(sb, s, c);
    }
  }

  lemma NeedsIndirect(sb: Super, s: State, n: nat, bn: nat)
    requires Shape(sb, s) && n < sb.ninodes && NDIRECT <= bn < MAXFILE
    ensures s.ino[n].addrs[NDIRECT] == 0 ==> NeedOne(sb, s, n, bn) >= 1
  {
  }

  lemma BothMaps(a: set<nat>, b: set<nat>, x: Inode, y: Inode)
    requires |a| <= 1 && |b| <= 1 && x.Ok() && y.Ok() && y.addrs[NDIRECT] != 0
    requires x.addrs[NDIRECT] != 0 ==> b == {}
    ensures |a + b| <= 1 + NewInd(x, y)
  {
    UnionCount(a, b);
    assert a + {} == a;
  }

  /** What is left to pay once the indirect block is there. */
  lemma IndCost(sb: Super, s: State, m: State, n: nat, bn: nat)
    requires n < sb.ninodes && NDIRECT <= bn < MAXFILE && RefMap(sb, s, m, Direct(n, NDIRECT))
    ensures |FreeSet(sb, m)| + One(s.ino[n].addrs[NDIRECT] == 0) == |FreeSet(sb, s)|
    ensures NeedOne(sb, s, n, bn) == One(s.ino[n].addrs[NDIRECT] == 0) + One(AddrOf(sb, m, BRef(n, bn)) == 0)
    ensures FreeSet(sb, m) == {} <==> |FreeSet(sb, m)| == 0
  {
    assert Stays(sb, s, m, BRef(n, bn));
  }

  /** The accesses `ops` lead from `base` to `blk` and saw `seen`; they are all to blocks from the
      inodes on, or look at the super block, and every block that was put, which includes every one
      that differs, was logged. */
  ghost predicate Tracks(sb: Super, base: seq<Block>, blk: seq<Block>, lg: set<nat>, ops: seq<Access>,
                         seen: seq<Block>)
  {
    && After(base, ops) == blk && Views(base, ops) == seen && PutsIn(ops, lg)
    && (forall i :: 0 <= i < |ops| ==> ops[i].b < |blk| && (sb.inodestart <= ops[i].b || ops[i] == Look(1)))
    && |blk| == |base| && (forall b :: 0 <= b < |blk| && blk[b] != base[b] ==> b in lg)
  }

  lemma TracksPut(sb: Super, base: seq<Block>, blk: seq<Block>, lg: set<nat>, ops: seq<Access>, seen: seq<Block>,
                  b: uint32, data: Block)
    requires sb.inodestart <= b < |blk|
    ensures Tracks(sb, base, blk, lg, ops, seen) ==>
      Tracks(sb, base, blk[b := data], lg + {b as nat}, ops + [Put(b, data)], seen)
  {
    Append(base, [], ops, Put(b, data));
  }

  /** An operation that has logged fewer blocks than `limit` and closes with one more. */
  lemma ClosesInRoom(sb: Super, base: seq<Block>, blk: seq<Block>, lg: set<nat>, ops: seq<Access>, seen: seq<Block>,
                     ops': seq<Access>, x: nat, early: set<nat>, limit: nat)
    requires Tracks(sb, base, blk, lg, ops, seen) && lg <= early && |early| < limit && Closes(ops, ops', x)
    ensures HasRoom(limit, [], ops')
  {
    hide HasRoom, After, Views;
    ClosesPuts(ops, ops', x, early);
    FewHaveRoom(limit, ops', early);
  }

  lemma TracksLook(sb: Super, base: seq<Block>, blk: seq<Block>, lg: set<nat>, ops: seq<Access>, seen: seq<Block>,
                   b: uint32)
    requires (sb.inodestart <= b || b == 1) && b < |blk|
    ensures Tracks(sb, base, blk, lg, ops, seen) ==> Tracks(sb, base, blk, lg, ops + [Look(b)], seen + [blk[b]])
  {
    Append(base, [], ops, Look(b));
  }

  /** The block of a byte of the file is mapped. */
  lemma ByteMapped(sb: Super, s: State, n: nat, o: nat)
    requires Healthy(sb, s) && n < sb.ninodes && o < s.ino[n].size
    ensures Shape(sb, s) && Owned(sb, s) && s.ino[n].size <= MAXBYTES && o / BSIZE < MAXFILE
    ensures AddrOf(sb, s, BRef(n, o / BSIZE)) != 0 && sb.IsData(AddrOf(sb, s, BRef(n, o / BSIZE)))
    ensures NeedOne(sb, s, n, o / BSIZE) == 0 && FileOk(sb, s, n) && ContentOf(sb, s, n) == Content(sb, s, n)
  {
    HealthyFile(sb, s, n);
    assert BnMapped(sb, s, n, o / BSIZE);
    assert RefOk(sb, s, BRef(n, o / BSIZE));
  }

  lemma FreeIsData(sb: Super, s: State, b: nat)
    requires Owned(sb, s) && b < sb.size && !Marked(sb, s, b)
    ensures Shape(sb, s) && sb.IsData(b)
  {
    assert BitOk(sb, s, b);
  }

  lemma SlicesJoin(c: seq<byte>, i: nat, j: nat, k: nat)
    requires i <= j <= k <= |c|
    ensures c[i..j] + c[j..k] == c[i..k]
  {
  }

  class FileSystem {
    const sb: Super
    var blk: seq<Block>
    var ino: seq<Inode>
    ghost var owner: map<nat, Ref>
    var logged: set<nat>             // blocks passed to log_write in this transaction
    ghost var base: seq<Block>       // the block map when the transaction began
    var journal: seq<Access>         // its breads and log_writes, in order
    ghost var seen: seq<Block>       // what the breads returned

    ghost predicate Tracked()
      reads this
    {
      Tracks(sb, base, blk, logged, journal, seen)
    }

    ghost function St(): State
      reads this
    {
      State(blk, ino, owner)
    }

    constructor (sb: Super, blk: seq<Block>, ino: seq<Inode>, ghost owner: map<nat, Ref>)
      ensures this.sb == sb && St() == State(blk, ino, owner) && logged == {} && base == blk && Tracked()
    {
      this.sb, this.blk, this.ino, this.owner, this.logged, this.base := sb, blk, ino, owner, {}, blk;
      this.journal, this.seen := [], [];
    }

    /** begin_op: the transaction starts from the block map as it is. */
    method Begin()
      modifies this`logged, this`base, this`journal, this`seen
      ensures logged == {} && base == blk && journal == [] && Tracked()
    {
      logged, base, journal, seen := {}, blk, [], [];
    }

    /** bread and brelse of a block. */
    method Bread(x: nat) returns (data: Block)
      requires (sb.inodestart <= x || x == 1) && x < |blk| < 0x1_0000_0000
      modifies this`journal, this`seen
      ensures data == blk[x] && journal == old(journal) + [Look(x)] && seen == old(seen) + [data]
      ensures old(Tracked()) ==> Tracked()
    {
      hide Tracks;
      TracksLook(sb, base, blk, logged, journal, seen, x);
      data := blk[x];
      journal, seen := journal + [Look(x)], seen + [data];
    }

    /** bread, change to `data`, log_write and brelse. */
    method LogWrite(x: nat, data: Block)
      requires sb.inodestart <= x < |blk| < 0x1_0000_0000
      modifies this`blk, this`logged, this`journal
      ensures blk == old(blk)[x := data] && logged == old(logged) + {x} && journal == old(journal) + [Put(x, data)]
      ensures old(Tracked()) ==> Tracked()
    {
      hide Tracks;
      TracksPut(sb, base, blk, logged, journal, seen, x, data);
      blk := blk[x := data];
      logged := logged + {x};
      journal := journal + [Put(x, data)];
    }

    /** The search in balloc: bitmap block by bitmap block, bit by bit. */
    method FindFree() returns (f: nat)
      requires Shape(sb, St())
      modifies this`journal, this`seen
      ensures old(Tracked()) ==> Tracked()
      ensures f <= sb.size
      ensures f < sb.size ==> !Marked(sb, St(), f)
      ensures forall c: nat :: c < f ==> Marked(sb, St(), c)
    {
      hide Marked, Tracks;
      var b := 0;
      while b < sb.size
        invariant b % BPB == 0 && forall c: nat :: c < b && c < sb.size ==> Marked(sb, St(), c)
        invariant old(Tracked()) ==> Tracked()
      {
        var bi := FindIn(b);
        if bi < BPB && b + bi < sb.size {
          return b + bi;
        }
        b := b + BPB;
      }
      f := sb.size;
    }

    /** The inner loop: the first bit of the bitmap block for block `b` on that is not set. */
    method FindIn(b: nat) returns (bi: nat)
      requires Shape(sb, St()) && b < sb.size && b % BPB == 0
      modifies this`journal, this`seen
      ensures old(Tracked()) ==> Tracked()
      ensures bi <= BPB && (bi < BPB && b + bi < sb.size ==> !Marked(sb, St(), b + bi))
      ensures forall c: nat :: b <= c < b + bi ==> c < sb.size && Marked(sb, St(), c)
    {
      hide BitIn, Tracks;
      var bp := Bread(sb.BBlock(b));
      bi := 0;
      while bi < BPB && b + bi < sb.size
        invariant 0 <= bi <= BPB && (bi == 0 || b + bi <= sb.size)
        invariant forall c: nat :: b <= c < b + bi ==> c < sb.size && Marked(sb, St(), c)
        invariant old(Tracked()) ==> Tracked()
      {
        assert sb.BBlock(b + bi) == sb.BBlock(b) && (b + bi) % BPB == bi;
        if !BitIn(bp, bi) {
          return;
        }
        bi := bi + 1;
      }
    }

    /** balloc: the first free block, marked and zeroed; it is a data block. */
    method Balloc() returns (r: Outcome<uint32>)
      requires Owned(sb, St())
      modifies this`blk, this`owner, this`logged, this`journal, this`seen
      ensures old(Tracked()) ==> Tracked()
      ensures r.Panic? <==> forall c: nat :: c < sb.size ==> old(Marked(sb, St(), c))
      ensures r.Panic? ==> St() == old(St()) && logged == old(logged)
      ensures r.Ok? ==>
        && sb.IsData(r.value) && !old(Marked(sb, St(), r.value))
        && (forall c: nat :: c < r.value ==> old(Marked(sb, St(), c)))
        && St() == Allocated(sb, old(St()), r.value)
        && logged == old(logged) + {sb.BBlock(r.value), r.value as nat}
    {
      hide Owned, Tracks, Marked;
      OwnedShape(sb, St());
      var b := FindFree();
      assert St() == old(St());
      if b == sb.size {
        return Panic;
      }
      FreeIsData(sb, St(), b);
      var bp := Bread(sb.BBlock(b));
      LogWrite(sb.BBlock(b), SetBitIn(bp, b % BPB));
      LogWrite(b, ZeroBlock);                               // bzero
      owner := owner[b := Loose];
      r := Ok(b);
    }

    /** bfree: unmark a block; false is the panic "freeing free block". */
    method Bfree(b: nat) returns (ok: bool)
      requires Shape(sb, St()) && b < sb.size
      modifies this`blk, this`owner, this`logged, this`journal, this`seen
      ensures old(Tracked()) ==> Tracked()
      ensures ok <==> old(Marked(sb, St(), b))
      ensures ok ==> St() == Freed(sb, old(St()), b) && logged == old(logged) + {sb.BBlock(b)}
      ensures !ok ==> St() == old(St()) && logged == old(logged)
    {
      hide Tracks;
      var bp := Bread(1);                                         // readsb, which gives `sb` again
      bp := Bread(sb.BBlock(b));
      var bi := b % BPB;
      if !BitIn(bp, bi) {
        return false;
      }
      LogWrite(sb.BBlock(b), ClearBitIn(bp, bi));
      owner := owner - {b};
      ok := true;
    }

    /** bmap's allocation for an address of the inode itself. */
    method NewDirect(n: nat, i: nat) returns (r: Outcome<uint32>, ghost maps: set<nat>)
      requires Owned(sb, St()) && n < sb.ninodes && i <= NDIRECT && ino[n].addrs[i] == 0
      modifies this`blk, this`ino, this`owner, this`logged, this`journal, this`seen
      ensures old(Tracked()) ==> Tracked()
      ensures r.Panic? <==> FreeSet(sb, old(St())) == {}
      ensures r.Panic? ==> St() == old(St()) && AllMarked(St())
      ensures r.Ok? ==> RefMap(sb, old(St()), St(), Direct(n, i)) && Grown(sb, old(St()), St(), n)
      ensures r.Ok? ==>
        && r.value == ino[n].addrs[i] != 0 && r.value < |blk| && blk[r.value] == ZeroBlock
        && (forall k :: 0 <= k <= NDIRECT && k != i ==> ino[n].addrs[k] == old(ino[n].addrs[k]))
        && |maps| <= 1 && logged <= old(logged) + maps + {r.value as nat}
    {
      hide Owned, Grown, RefMap, FreeSet, Marked, Tracks;
      ghost var s := St();
      OwnedShape(sb, s);
      NoneFree(sb, s);
      maps := {};
      r := Balloc();
      if r.Panic? {
        return;
      }
      var addr := r.value;
      DirectGrown(sb, s, n, i, addr);
      DirectMap(sb, s, n, i, addr);
      ino := ino[n := ino[n].(addrs := ino[n].addrs[i := addr])];
      owner := owner[addr as nat := Direct(n, i)];
      maps := {sb.BBlock(addr)};
      assert St() == WithDirect(Allocated(sb, s, addr), n, i, addr);
    }

    /** bmap on an address of the inode itself. */
    method MapDirect(n: nat, i: nat) returns (r: Outcome<uint32>, ghost maps: set<nat>)
      requires Owned(sb, St()) && n < sb.ninodes && i <= NDIRECT
      modifies this`blk, this`ino, this`owner, this`logged, this`journal, this`seen
      ensures old(Tracked()) ==> Tracked()
      ensures r.Panic? <==> old(ino[n].addrs[i]) == 0 && FreeSet(sb, old(St())) == {}
      ensures r.Panic? ==> St() == old(St()) && AllMarked(St())
      ensures r.Ok? ==> RefMap(sb, old(St()), St(), Direct(n, i)) && Grown(sb, old(St()), St(), n)
      ensures r.Ok? ==>
        && r.value == ino[n].addrs[i] != 0
        && (forall k :: 0 <= k <= NDIRECT && k != i ==> ino[n].addrs[k] == old(ino[n].addrs[k]))
        && (old(ino[n].addrs[i]) != 0 ==> St() == old(St()) && logged == old(logged) && maps == {})
        && r.value < |blk| && (old(ino[n].addrs[i]) == 0 ==> blk[r.value] == ZeroBlock)
        && |maps| <= 1 && logged <= old(logged) + maps + {r.value as nat}
    {
      assert RefOk(sb, St(), Direct(n, i));
      maps := {};
      if ino[n].addrs[i] == 0 {
        hide RefOk, BlockOk, BitOk, Grown, RefMap, FreeSet, Marked;
        r, maps := NewDirect(n, i);
      } else {
        GrownNone(sb, St(), n);
        RefMapped(sb, St(), Direct(n, i));
        r := Ok(ino[n].addrs[i]);
      }
    }

    /** bmap's allocation for an entry of the indirect block `ind`. */
    method NewEntry(n: nat, j: nat, ind: uint32) returns (r: Outcome<uint32>, ghost maps: set<nat>)
      requires Owned(sb, St()) && n < sb.ninodes && j < NINDIRECT
      requires ind == ino[n].addrs[NDIRECT] != 0 && ind < |blk| && AddrOf(sb, St(), Entry(n, j)) == 0
      modifies this`blk, this`owner, this`logged, this`journal, this`seen
      ensures old(Tracked()) ==> Tracked()
      ensures r.Panic? <==> FreeSet(sb, old(St())) == {}
      ensures r.Panic? ==> St() == old(St()) && AllMarked(St())
      ensures r.Ok? ==> RefMap(sb, old(St()), St(), Entry(n, j)) && Grown(sb, old(St()), St(), n)
      ensures r.Ok? ==>
        && r.value as nat == AddrOf(sb, St(), Entry(n, j)) != 0
        && |maps| <= 1 && logged <= old(logged) + maps + {r.value as nat} + {ind as nat}
    {
      hide Owned, Grown, RefMap, FreeSet, Marked, Tracks;
      ghost var s := St();
      NoneFree(sb, s);
      OwnedShape(sb, s);
      DirectOwned(sb, s, n, NDIRECT);
      maps := {};
      r := Balloc();
      if r.Panic? {
        return;
      }
      var addr := r.value;
      EntryGrown(sb, s, n, j, addr);
      EntryMap(sb, s, n, j, addr);
      var bp := Bread(ind);
      LogWrite(ind, SetWord(bp, j, addr));
      owner := owner[addr as nat := Entry(n, j)];
      maps := {sb.BBlock(addr)};
      assert St() == WithEntry(Allocated(sb, s, addr), n, j, addr);
    }

    /** bmap on an entry of the indirect block. */
    method MapEntry(n: nat, j: nat) returns (r: Outcome<uint32>, ghost maps: set<nat>)
      requires Owned(sb, St()) && n < sb.ninodes && j < NINDIRECT && ino[n].addrs[NDIRECT] != 0
      modifies this`blk, this`owner, this`logged, this`journal, this`seen
      ensures old(Tracked()) ==> Tracked()
      ensures r.Panic? <==> AddrOf(sb, old(St()), Entry(n, j)) == 0 && FreeSet(sb, old(St())) == {}
      ensures r.Panic? ==> St() == old(St()) && AllMarked(St())
      ensures r.Ok? ==> RefMap(sb, old(St()), St(), Entry(n, j)) && Grown(sb, old(St()), St(), n)
      ensures r.Ok? ==>
        && r.value as nat == AddrOf(sb, St(), Entry(n, j)) != 0
        && (old(AddrOf(sb, St(), Entry(n, j))) != 0 ==> St() == old(St()) && logged == old(logged) && maps == {})
        && |maps| <= 1 && logged <= old(logged) + maps + {r.value as nat} + IndSet(ino[n])
    {
      hide Owned, Grown, RefMap, FreeSet, Marked, Tracks;
      DirectOwned(sb, St(), n, NDIRECT);
      maps := {};
      var ind := ino[n].addrs[NDIRECT];
      var bp := Bread(ind);
      if Word(bp, j) == 0 {
        r, maps := NewEntry(n, j, ind);
      } else {
        GrownNone(sb, St(), n);
        RefMapped(sb, St(), Entry(n, j));
        r := Ok(Word(bp, j));
      }
    }

    /** bmap: the address of block `bn` of a file, allocating what is missing. It never
        changes what any file reads as, and it changes nothing when the block is mapped. */
    method Bmap(n: nat, bn: nat) returns (r: Outcome<uint32>, ghost maps: set<nat>)
      requires Owned(sb, St()) && n < sb.ninodes
      modifies this`blk, this`ino, this`owner, this`logged, this`journal, this`seen
      ensures old(Tracked()) ==> Tracked()
      ensures bn >= MAXFILE ==> r.Panic?
      ensures bn < MAXFILE ==> (r.Panic? <==> |FreeSet(sb, old(St()))| < NeedOne(sb, old(St()), n, bn))
      ensures r.Panic? && bn < MAXFILE ==> Shape(sb, St()) && AllMarked(St())
      ensures r.Ok? ==> OneMap(sb, old(St()), St(), n, bn) && Grown(sb, old(St()), St(), n)
      ensures r.Ok? ==>
        && r.value as nat == AddrOf(sb, St(), BRef(n, bn)) != 0
        && (AddrOf(sb, old(St()), BRef(n, bn)) != 0 ==> St() == old(St()) && logged == old(logged) && maps == {})
        && logged <= old(logged) + maps + {r.value as nat} + IndSet(ino[n])
        && |maps| <= 1 + NewInd(old(ino[n]), ino[n])
    {
      hide SameFiles, Keeps, OnlyAddrs, AllOwned, RefOk, BlockOk, BitOk, FreeSet, RefMap, OneMap;
      ghost var s := St();
      if bn < NDIRECT {
        r, maps := MapDirect(n, bn);
        if r.Ok? { DirectIsOneMap(sb, s, St(), n, bn); }
        return;
      }
      if bn - NDIRECT < NINDIRECT {
        r, maps := MapThrough(n, bn);
        return;
      }
      return Panic, {};
    }

    /** bmap beyond the direct blocks: the indirect block, then its entry. */
    method MapThrough(n: nat, bn: nat) returns (r: Outcome<uint32>, ghost maps: set<nat>)
      requires Owned(sb, St()) && n < sb.ninodes && NDIRECT <= bn < MAXFILE
      modifies this`blk, this`ino, this`owner, this`logged, this`journal, this`seen
      ensures old(Tracked()) ==> Tracked()
      ensures r.Panic? <==> |FreeSet(sb, old(St()))| < NeedOne(sb, old(St()), n, bn)
      ensures r.Panic? ==> Shape(sb, St()) && AllMarked(St())
      ensures r.Ok? ==> OneMap(sb, old(St()), St(), n, bn) && Grown(sb, old(St()), St(), n)
      ensures r.Ok? ==>
        && r.value as nat == AddrOf(sb, St(), BRef(n, bn)) != 0
        && (AddrOf(sb, old(St()), BRef(n, bn)) != 0 ==> St() == old(St()) && logged == old(logged) && maps == {})
        && logged <= old(logged) + maps + {r.value as nat} + IndSet(ino[n])
        && |maps| <= 1 + NewInd(old(ino[n]), ino[n])
    {
      hide Owned, Grown, FreeSet, OneMap, Marked, RefMap, Tracks, NeedOne, NewInd, AllMarked;
      ghost var s := St();
      OwnedShape(sb, s);
      NeedsIndirect(sb, s, n, bn);
      ghost var maps';
      r, maps' := MapDirect(n, NDIRECT);
      if r.Panic? {
        return Panic, {};
      }
      ghost var mid := St();
      GrownAddr(sb, s, mid, n, bn);
      GrownKeeps(sb, s, mid, n, BRef(n, bn));
      IndCost(sb, s, mid, n, bn);
      r, maps := MapEntry(n, bn - NDIRECT);
      if r.Ok? {
        GrownTrans(sb, s, mid, St(), n);
        EntryIsOneMap(sb, s, mid, St(), n, bn);
        BothMaps(maps, maps', s.ino[n], ino[n]);
      }
      maps := maps + maps';
    }

    /** One iteration of writei: map the block, copy into it, log it. */
    method WriteStep(n: nat, o: nat, part: seq<byte>) returns (ok: bool, ghost maps: set<nat>, ghost addr: nat)
      requires Owned(sb, St()) && n < sb.ninodes && o % BSIZE + |part| <= BSIZE && o / BSIZE < MAXFILE
      requires o + |part| <= MAXBYTES
      modifies this`blk, this`ino, this`owner, this`logged, this`journal, this`seen
      ensures old(Tracked()) ==> Tracked()
      ensures !ok <==> |FreeSet(sb, old(St()))| < NeedOne(sb, old(St()), n, o / BSIZE)
      ensures !ok ==> Shape(sb, St()) && AllMarked(St())
      ensures ok ==> OneMap(sb, old(St()), St(), n, o / BSIZE)
      ensures ok ==>
        && Written(sb, old(St()), St(), n, o, part) && BnMapped(sb, St(), n, o / BSIZE)
        && (BnMapped(sb, old(St()), n, o / BSIZE) ==> ino == old(ino) && maps == {})
        && logged <= old(logged) + maps + {addr} + IndSet(ino[n])
        && |maps| <= 1 + NewInd(old(ino[n]), ino[n])
    {
      hide Grown, Owned, Written, OneMap, FreeSet, NeedOne, IndSet, NewInd, Tracks;
      var r: Outcome<uint32>;
      addr := 0;
      r, maps := Bmap(n, o / BSIZE);
      if r.Panic? {
        return false, maps, addr;
      }
      ghost var mid, k := St(), o / BSIZE;
      GrownAddr(sb, old(St()), mid, n, k);
      var at := o % BSIZE;
      var bp := Bread(r.value);
      var data: Block := bp[..at] + part + bp[at + |part|..];
      LogWrite(r.value, data);
      addr := r.value;
      ok := true;
      WriteStepDone(sb, old(St()), mid, n, o, part, data);
      OneMapThenData(sb, old(St()), mid, n, k, data);
      assert St() == mid.(blk := mid.blk[addr := data]);
    }

    /** iupdate: the inode block gets the in-memory inode; the other inodes in it stay. */
    method Iupdate(n: nat)
      requires Owned(sb, St()) && n < sb.ninodes
      modifies this`blk, this`logged, this`journal, this`seen
      ensures old(Tracked()) ==> Tracked()
      ensures Updated(sb, old(St()), St(), n)
      ensures logged == old(logged) + {sb.IBlock(n)} && Closes(old(journal), journal, sb.IBlock(n))
    {
      hide Updated, Owned, Tracks;
      var x := sb.IBlock(n);
      InodeStoredIs(sb, St(), n);
      OwnedShape(sb, St());
      var bp := Bread(x);
      LogWrite(x, PutSlot(bp, n % IPB, Encode(ino[n])));
      assert St() == InodeStored(sb, old(St()), n);
    }

    /** One turn of the copy loop of writei, relative to the state `s` and the logged blocks
        `lg` at its start. */
    method WriteTurn(n: nat, off: nat, src: seq<byte>, tot: nat, ghost s: State, ghost lg: set<nat>,
                     ghost maps: set<nat>, ghost datas: set<nat>)
      returns (ok: bool, tot': nat, ghost maps': set<nat>, ghost datas': set<nat>)
      requires tot < |src| && off + |src| <= MAXBYTES && (tot == 0 || (off + tot) % BSIZE == 0)
      requires Progress(sb, s, St(), n, off, src[..tot]) && off <= s.ino[n].size
      requires Tally(s.ino[n], ino[n], off, off + tot, maps, datas, lg, logged)
      requires RangeMap(sb, s, St(), n, off / BSIZE, UpTo(off, off + tot))
      modifies this`blk, this`ino, this`owner, this`logged, this`journal, this`seen
      ensures old(Tracked()) ==> Tracked()
      ensures !ok ==> Shape(sb, St()) && AllMarked(St())
      ensures !ok ==> UpTo(off, off + |src|) <= MAXFILE &&
                      |FreeSet(sb, s)| < Need(sb, s, n, off / BSIZE, UpTo(off, off + |src|))
      ensures ok ==> RangeMap(sb, s, St(), n, off / BSIZE, UpTo(off, off + tot'))
      ensures ok ==>
        && tot < tot' <= |src| && (tot' == |src| || (off + tot') % BSIZE == 0)
        && Progress(sb, s, St(), n, off, src[..tot'])
        && Tally(s.ino[n], ino[n], off, off + tot', maps', datas', lg, logged)
    {
      hide Progress, Tally, Written, Owned, BnMapped, IndSet, NewInd, UpTo, RangeMap, OneMap, FreeSet, NeedOne, Need;
      hide Tracked;
      var m := if |src| - tot < BSIZE - (off + tot) % BSIZE then |src| - tot else BSIZE - (off + tot) % BSIZE;
      ghost var mid, lg' := St(), logged;
      ProgressFacts(sb, s, mid, n, off, src[..tot]);
      ghost var more, addr;
      UpToStep(off, off + tot, m);
      UpToMonotone(off, off + tot + m, off + |src|);
      ok, more, addr := WriteStep(n, off + tot, src[tot..tot + m]);
      tot', maps', datas' := tot + m, maps + more, datas + {addr};
      if ok {
        RangeStep(sb, s, mid, St(), n, off / BSIZE, (off + tot) / BSIZE);
        StepDone(sb, s, mid, St(), n, off, tot, m, src, maps, datas, lg, lg', logged, more, addr);
      } else {
        TurnFails(sb, s, mid, n, off / BSIZE, (off + tot) / BSIZE, UpTo(off, off + |src|));
      }
    }

    /** The copy loop of writei. */
    method WriteLoop(n: nat, off: nat, src: seq<byte>) returns (ok: bool, ghost maps: set<nat>, ghost datas: set<nat>)
      requires Owned(sb, St()) && n < sb.ninodes && FileOk(sb, St(), n) && off <= ino[n].size && off + |src| <= MAXBYTES
      modifies this`blk, this`ino, this`owner, this`logged, this`journal, this`seen
      ensures old(Tracked()) ==> Tracked()
      ensures UpTo(off, off + |src|) <= MAXFILE
      ensures !ok ==> |FreeSet(sb, old(St()))| < Need(sb, old(St()), n, off / BSIZE, UpTo(off, off + |src|))
      ensures !ok ==> Shape(sb, St()) && AllMarked(St())
      ensures ok ==> RangeMap(sb, old(St()), St(), n, off / BSIZE, UpTo(off, off + |src|))
      ensures ok ==> Progress(sb, old(St()), St(), n, off, src)
      ensures ok ==> Tally(old(ino[n]), ino[n], off, off + |src|, maps, datas, old(logged), logged)
      ensures src == [] ==> ok && logged == old(logged)
    {
      hide Owned, FileOk, Progress, Tally, UpTo, RangeMap, FreeSet, Need, Tracked;
      maps, datas := {}, {};
      RangeStart(sb, St(), n, off, |src|);
      ProgressStart(sb, St(), n, off);
      ProgressFacts(sb, St(), St(), n, off, []);
      TallyStart(ino[n], off, logged);
      var tot := 0;
      assert src[..0] == [];
      while tot < |src|
        invariant 0 <= tot <= |src|
        invariant tot == 0 || tot == |src| || (off + tot) % BSIZE == 0
        invariant old(Tracked()) ==> Tracked()
        invariant Shape(sb, St()) && Progress(sb, old(St()), St(), n, off, src[..tot])
        invariant RangeMap(sb, old(St()), St(), n, off / BSIZE, UpTo(off, off + tot))
        invariant Tally(old(ino[n]), ino[n], off, off + tot, maps, datas, old(logged), logged)
        invariant src == [] ==> logged == old(logged)
      {
        ok, tot, maps, datas := WriteTurn(n, off, src, tot, old(St()), old(logged), maps, datas);
        if !ok {
          return;
        }
        ProgressFacts(sb, old(St()), St(), n, off, src[..tot]);
      }
      assert src[..|src|] == src;
      ok := true;
    }

    /** writei: refuse, or splice the bytes into the file; in either case the state is
        healthy again, which includes that every new address is on disk. */
    method Writei(n: nat, src: seq<byte>, off: uint32, devsw: seq<Option<int>>)
      returns (r: Outcome<int>, ghost touched: set<nat>)
      requires Healthy(sb, St()) && n < sb.ninodes && |src| < 0x1_0000_0000 && |devsw| == NDEV
      modifies this`blk, this`ino, this`owner, this`logged, this`journal, this`seen
      ensures old(Tracked()) ==> Tracked()
      ensures old(ino[n]).typ == T_DEV ==>
        r == Ok(DeviceResult(old(ino[n]), devsw)) && St() == old(St()) && logged == old(logged)
      ensures old(ino[n]).typ != T_DEV && Refused(old(ino[n]).size, off, |src|) ==>
        r == Ok(-1) && St() == old(St()) && logged == old(logged) && journal == old(journal)
      ensures old(ino[n]).typ != T_DEV && !Refused(old(ino[n]).size, off, |src|) ==>
        && off + |src| <= MAXBYTES && WriteDone(sb, old(St()), St(), n, off, src, r)
        && (r.Panic? ==> Shape(sb, St()) && AllMarked(St()))
        && (r.Ok? ==> logged <= old(logged) + touched && |touched| <= LogBound(off, off + |src|))
        && (r.Ok? && src != [] && old(Tracked()) && old(logged) == {} ==>
              HasRoom(LogBound(off, off + |src|), [], journal))
    {
      hide Healthy, WriteDone, Tracked, LogBound, HasRoom;
      HealthyFile(sb, St(), n);
      touched := {};
      if ino[n].typ == T_DEV {
        if ino[n].major >= NDEV || devsw[ino[n].major].None? {
          return Ok(-1), touched;
        }
        return Ok(devsw[ino[n].major].value), touched;
      }
      if off > ino[n].size || (off + |src|) % 0x1_0000_0000 < off {
        return Ok(-1), touched;
      }
      if (off + |src|) % 0x1_0000_0000 > MAXBYTES {
        return Ok(-1), touched;
      }
      r, touched := WriteBody(n, src, off);
    }

    /** writei after its range checks. */
    method WriteBody(n: nat, src: seq<byte>, off: nat) returns (r: Outcome<int>, ghost touched: set<nat>)
      requires Healthy(sb, St()) && n < sb.ninodes && off <= ino[n].size && off + |src| <= MAXBYTES
      modifies this`blk, this`ino, this`owner, this`logged, this`journal, this`seen
      ensures old(Tracked()) ==> Tracked()
      ensures WriteDone(sb, old(St()), St(), n, off, src, r)
      ensures r.Panic? ==> Shape(sb, St()) && AllMarked(St())
      ensures r.Ok? ==> logged <= old(logged) + touched && |touched| <= LogBound(off, off + |src|)
      ensures r.Ok? && src != [] && old(Tracked()) && old(logged) == {} ==>
        HasRoom(LogBound(off, off + |src|), [], journal)
    {
      hide Healthy, FileOk, Owned, Tally, Progress, Spliced, UpTo, RangeMap, FreeSet, Need, Tracks, LogBound;
      hide IndSet, HasRoom, Closes;
      HealthyFile(sb, St(), n);
      touched := {};
      var ok: bool;
      ghost var maps, datas;
      ok, maps, datas := WriteLoop(n, off, src);
      if !ok {
        return Panic, touched;
      }
      RangePaid(sb, old(St()), St(), n, off / BSIZE, UpTo(off, off + |src|));
      ProgressFacts(sb, old(St()), St(), n, off, src);
      TallyLogged(old(ino[n]), ino[n], off, off + |src|, maps, datas, old(logged), logged);
      if |src| > 0 {
        touched := maps + datas + IndSet(ino[n]) + {sb.IBlock(n)};
        TallyBound(old(ino[n]), ino[n], off, off + |src|, maps, datas, old(logged), logged, sb.IBlock(n));
      }
      ghost var early, d, lg, ops, views := maps + datas + IndSet(ino[n]), blk, logged, journal, seen;
      WriteTail(n, off, src, old(St()));
      if |src| > 0 && old(Tracked()) && old(logged) == {} {
        ClosesInRoom(sb, base, d, lg, ops, views, journal, sb.IBlock(n), early, LogBound(off, off + |src|));
      }
      r := Ok(|src|);
    }

    /** The end of writei: the new size, if the file grew. */
    method WriteTail(n: nat, off: nat, src: seq<byte>, ghost s: State)
      requires Healthy(sb, s) && n < sb.ninodes && off <= s.ino[n].size && off + |src| <= MAXBYTES
      requires Progress(sb, s, St(), n, off, src) && RangeMap(sb, s, St(), n, off / BSIZE, UpTo(off, off + |src|))
      modifies this`blk, this`ino, this`logged, this`journal, this`seen
      ensures old(Tracked()) ==> Tracked()
      ensures Spliced(sb, s, St(), n, off, src) && RangeMap(sb, s, St(), n, off / BSIZE, UpTo(off, off + |src|))
      ensures logged <= old(logged) + {sb.IBlock(n)} && (src == [] ==> logged == old(logged))
      ensures Closes(old(journal), journal, sb.IBlock(n))
    {
      hide Healthy, Progress, Spliced, UpTo, RangeMap, Updated, Owned, Tracked;
      ghost var mid := St();
      ProgressFacts(sb, s, mid, n, off, src);
      if |src| > 0 && off + |src| > ino[n].size {
        Grow(n, off + |src|);
        RangeThenUpdate(sb, s, mid, St(), n, off / BSIZE, UpTo(off, off + |src|), off + |src|);
        WriteBeyond(sb, s, mid, St(), n, off, src);
      } else {
        WriteInside(sb, s, mid, n, off, src);
      }
    }

    /** `ip->size = off; iupdate(ip)` */
    method Grow(n: nat, size: uint32)
      requires Owned(sb, St()) && n < sb.ninodes
      modifies this`blk, this`ino, this`logged, this`journal, this`seen
      ensures old(Tracked()) ==> Tracked()
      ensures Updated(sb, SetSize(old(St()), n, size), St(), n)
      ensures logged == old(logged) + {sb.IBlock(n)} && Closes(old(journal), journal, sb.IBlock(n))
    {
      hide Closes;
      SetSizeOwned(sb, St(), n, size);
      ino := ino[n := ino[n].(size := size)];
      Iupdate(n);
    }

    /** One iteration of readi: the block is mapped, so bmap changes nothing. */
    method ReadStep(n: nat, o: nat, m: nat) returns (part: seq<byte>)
      requires Healthy(sb, St()) && n < sb.ninodes && 0 < m && o + m <= ino[n].size && o % BSIZE + m <= BSIZE
      modifies this`blk, this`ino, this`owner, this`logged, this`journal, this`seen
      ensures St() == old(St()) && logged == old(logged) && (old(Tracked()) ==> Tracked())
      ensures part == ContentOf(sb, St(), n)[o..o + m]
    {
      hide Healthy, Owned, Grown, OneMap, FreeSet, Tracks;
      ByteMapped(sb, St(), n, o);
      ghost var maps;
      var r: Outcome<uint32>;
      r, maps := Bmap(n, o / BSIZE);
      var bp := Bread(r.value);
      part := bp[o % BSIZE..o % BSIZE + m];
      SliceOfBlock(sb, St(), n, o, m);
    }

    /** readi: refuse, or return a slice of the content. It runs outside any transaction, and
        it leaves no trace: nothing is allocated and nothing is logged. */
    method Readi(n: nat, off: uint32, cnt: uint32, devsw: seq<Option<int>>) returns (r: int, dst: seq<byte>)
      requires Healthy(sb, St()) && n < sb.ninodes && |devsw| == NDEV
      modifies this`blk, this`ino, this`owner, this`logged, this`journal, this`seen
      ensures St() == old(St()) && logged == old(logged) && (old(Tracked()) ==> Tracked())
      ensures ino[n].typ == T_DEV ==> r == DeviceResult(ino[n], devsw)
      ensures ino[n].typ != T_DEV && (off > ino[n].size || off + cnt >= 0x1_0000_0000) ==> r == -1
      ensures ino[n].typ != T_DEV && off <= ino[n].size && off + cnt < 0x1_0000_0000 ==>
        && r == |dst| == (if off + cnt > ino[n].size then ino[n].size - off else cnt)
        && dst == ContentOf(sb, St(), n)[off..off + r]
    {
      dst := [];
      if ino[n].typ == T_DEV {
        if ino[n].major >= NDEV || devsw[ino[n].major].None? {
          return -1, dst;
        }
        return devsw[ino[n].major].value, dst;
      }
      if off > ino[n].size || (off + cnt) % 0x1_0000_0000 < off {
        return -1, dst;
      }
      var k := cnt;
      if (off + k) % 0x1_0000_0000 > ino[n].size {
        k := ino[n].size - off;
      }
      dst := ReadLoop(n, off, k);
      r := k;
    }

    /** The copy loop of readi. */
    method ReadLoop(n: nat, off: nat, k: nat) returns (dst: seq<byte>)
      requires Healthy(sb, St()) && n < sb.ninodes && off + k <= ino[n].size
      modifies this`blk, this`ino, this`owner, this`logged, this`journal, this`seen
      ensures St() == old(St()) && logged == old(logged) && (old(Tracked()) ==> Tracked())
      ensures dst == ContentOf(sb, St(), n)[off..off + k]
    {
      hide RefOk, BlockOk, BitOk, InodeOk;
      dst := [];
      var tot := 0;
      while tot < k
        invariant 0 <= tot <= k && |dst| == tot
        invariant St() == old(St()) && logged == old(logged) && (old(Tracked()) ==> Tracked())
        invariant dst == ContentOf(sb, old(St()), n)[off..off + tot]
      {
        var m := if k - tot < BSIZE - (off + tot) % BSIZE then k - tot else BSIZE - (off + tot) % BSIZE;
        var part := ReadStep(n, off + tot, m);
        SlicesJoin(ContentOf(sb, old(St()), n), off, off + tot, off + tot + m);
        dst := dst + part;
        tot := tot + m;
      }
    }

    /** The first loop of itrunc. */
    method FreeDirects(n: nat) returns (ok: bool)
      requires Owned(sb, St()) && AllOwned(St()) && n < sb.ninodes
      modifies this`blk, this`ino, this`owner, this`logged, this`journal, this`seen
      ensures ok && (old(Tracked()) ==> Tracked())
      ensures owner.Keys <= old(owner).Keys && logged == old(logged) + Gone(sb, old(owner), owner)
      ensures Owned(sb, St()) && AllOwned(St()) && Apart(sb, old(St()), St(), n) && Shed(old(owner), owner, n)
      ensures ino == old(ino)[n := old(ino[n]).(addrs := ino[n].addrs)]
      ensures ino[n].addrs[NDIRECT] == old(ino[n].addrs[NDIRECT])
      ensures forall k :: 0 <= k < NDIRECT ==> ino[n].addrs[k] == 0
    {
      hide Owned, Apart, Gone, Tracks;
      OwnedShape(sb, St());
      ApartNone(sb, St(), n);
      GoneNone(sb, owner, owner);
      ok := true;
      var i := 0;
      while i < NDIRECT
        invariant 0 <= i <= NDIRECT && ok && (old(Tracked()) ==> Tracked())
        invariant owner.Keys <= old(owner).Keys && logged == old(logged) + Gone(sb, old(owner), owner)
        invariant Shape(sb, St()) && Owned(sb, St()) && AllOwned(St())
        invariant Apart(sb, old(St()), St(), n) && Shed(old(owner), owner, n)
        invariant ino == old(ino)[n := old(ino[n]).(addrs := ino[n].addrs)]
        invariant ino[n].addrs[NDIRECT] == old(ino[n].addrs[NDIRECT]) && forall k :: 0 <= k < i ==> ino[n].addrs[k] == 0
      {
        if ino[n].addrs[i] != 0 {
          ghost var s := St();
          FreeDirectDone(sb, s, n, i);
          GoneOne(sb, old(owner), owner, ino[n].addrs[i]);
          ok := Bfree(ino[n].addrs[i]);
          ino := ino[n := ino[n].(addrs := ino[n].addrs[i := 0])];
          OwnedShape(sb, St());
          ApartTrans(sb, old(St()), s, St(), n);
          ShedTrans(old(owner), s.owner, owner, n);
        }
        i := i + 1;
      }
    }

    /** The state in which inode `n` of `s` has already let go of its indirect block. */
    ghost function Drained(s: State, n: nat): State
      requires n < |s.ino| && s.ino[n].Ok()
      reads this
    {
      State(blk, WithoutIndirect(s, n).ino, owner)
    }

    /** One turn of the loop over the entries of the indirect block; `s` is the state before
        the loop. */
    method FreeEntry(b: uint32, ghost s: State, ghost n: nat, ghost j: nat) returns (ok: bool)
      requires Shape(sb, St()) && n < |s.ino| && s.ino[n].Ok() && Draining(sb, s, Drained(s, n), n, j)
      requires j < NINDIRECT && b == Word(s.blk[s.ino[n].addrs[NDIRECT]], j)
      modifies this`blk, this`owner, this`logged, this`journal, this`seen
      ensures ok && Shape(sb, St()) && Draining(sb, s, Drained(s, n), n, j + 1)
      ensures old(Tracked()) ==> Tracked()
      ensures owner.Keys <= old(owner).Keys && logged == old(logged) + Gone(sb, old(owner), owner)
    {
      hide Draining, Word, Gone, Tracks;
      ghost var v := Drained(s, n);
      ok := true;
      GoneNone(sb, owner, owner);
      if b != 0 {
        DrainFree(sb, s, v, n, j);
        GoneOne(sb, owner, owner, b);
        ok := Bfree(b);
        assert Drained(s, n) == Freed(sb, v, b);
      } else {
        DrainSkip(sb, s, v, n, j);
      }
    }

    method FreeEntries(bp: Block, ghost s: State, ghost n: nat) returns (ok: bool)
      requires Shape(sb, St()) && n < |s.ino| && s.ino[n].Ok() && s.ino[n].addrs[NDIRECT] < |s.blk|
      requires Draining(sb, s, Drained(s, n), n, 0) && bp == s.blk[s.ino[n].addrs[NDIRECT]]
      modifies this`blk, this`owner, this`logged, this`journal, this`seen
      ensures ok && Shape(sb, St()) && Draining(sb, s, Drained(s, n), n, NINDIRECT)
      ensures old(Tracked()) ==> Tracked()
      ensures owner.Keys <= old(owner).Keys && logged == old(logged) + Gone(sb, old(owner), owner)
    {
      hide Draining, Word, WithoutIndirect, Shape, Drained, St, Gone, Tracks;
      ok := true;
      var j := 0;
      GoneNone(sb, owner, owner);
      while j < NINDIRECT
        invariant 0 <= j <= NINDIRECT && ok && Shape(sb, St())
        invariant Draining(sb, s, Drained(s, n), n, j) && (old(Tracked()) ==> Tracked())
        invariant owner.Keys <= old(owner).Keys && logged == old(logged) + Gone(sb, old(owner), owner)
      {
        ghost var o := owner;
        ok := FreeEntry(Word(bp, j), s, n, j);
        GoneTrans(sb, old(owner), o, owner);
        j := j + 1;
      }
    }

    /** The second half of itrunc: the entries, then the indirect block itself. */
    method FreeIndirect(n: nat) returns (ok: bool)
      requires Owned(sb, St()) && AllOwned(St()) && n < sb.ninodes && ino[n].addrs[NDIRECT] != 0
      modifies this`blk, this`ino, this`owner, this`logged, this`journal, this`seen
      ensures ok && (old(Tracked()) ==> Tracked())
      ensures owner.Keys <= old(owner).Keys && logged == old(logged) + Gone(sb, old(owner), owner)
      ensures Owned(sb, St()) && AllOwned(St()) && Apart(sb, old(St()), St(), n) && Shed(old(owner), owner, n)
      ensures ino == old(ino)[n := old(ino[n]).(addrs := old(ino[n].addrs)[NDIRECT := 0])]
    {
      hide Draining, Owned, Apart, AllOwned, Word, Gone, Tracks;
      ghost var s := St();
      DrainStart(sb, s, n);
      DirectOwned(sb, s, n, NDIRECT);
      owner := WithoutIndirect(s, n).owner;
      assert owner.Keys == s.owner.Keys;
      GoneNone(sb, s.owner, owner);
      ghost var o := owner;
      var ind := ino[n].addrs[NDIRECT];
      var bp := Bread(ind);
      ok := FreeEntries(bp, s, n);
      GoneTrans(sb, s.owner, o, owner);
      ghost var v := Drained(s, n);
      DrainEnd(sb, s, v, n);
      GoneOne(sb, s.owner, owner, ind);
      ok := Bfree(ind);
      ino := ino[n := ino[n].(addrs := ino[n].addrs[NDIRECT := 0])];
      assert St() == Freed(sb, v, ind);
    }

    /** The loops of itrunc. */
    method FreeBlocks(n: nat) returns (ok: bool)
      requires Owned(sb, St()) && AllOwned(St()) && n < sb.ninodes
      modifies this`blk, this`ino, this`owner, this`logged, this`journal, this`seen
      ensures ok && (old(Tracked()) ==> Tracked())
      ensures owner.Keys <= old(owner).Keys && logged == old(logged) + Gone(sb, old(owner), owner)
      ensures Owned(sb, St()) && AllOwned(St()) && Apart(sb, old(St()), St(), n) && Shed(old(owner), owner, n)
      ensures ino == old(ino)[n := old(ino[n]).(addrs := ino[n].addrs)]
      ensures forall k :: 0 <= k <= NDIRECT ==> ino[n].addrs[k] == 0
    {
      hide Owned, Apart, AllOwned, Gone, Tracks, Shed;
      ghost var s := St();
      OwnedShape(sb, s);
      ok := FreeDirects(n);
      ghost var t := St();
      OwnedShape(sb, t);
      if ino[n].addrs[NDIRECT] != 0 {
        ok := FreeIndirect(n);
        ApartTrans(sb, s, t, St(), n);
        ShedTrans(s.owner, t.owner, owner, n);
        GoneTrans(sb, s.owner, t.owner, owner);
        OwnedShape(sb, St());
      }
    }

    /** itrunc: the file is empty and exactly its blocks have gone; every block it frees was
        marked, so that "freeing free block" cannot happen (`ok`). */
    method Itrunc(n: nat) returns (ok: bool)
      requires Healthy(sb, St()) && n < sb.ninodes
      modifies this`blk, this`ino, this`owner, this`logged, this`journal, this`seen
      ensures ok && Truncated(sb, old(St()), St(), n) && (old(Tracked()) ==> Tracked())
      ensures logged == old(logged) + Gone(sb, old(owner), owner) + {sb.IBlock(n)}
      ensures |Gone(sb, old(owner), owner)| <= sb.size / BPB + 1
      ensures old(Tracked()) && old(logged) == {} ==> HasRoom(sb.size / BPB + 2, [], journal)
    {
      hide Healthy, Owned, Apart, AllOwned, Gone, Tracks, HasRoom, Closes, Shed, Truncated, Updated;
      ghost var s := St();
      HealthyOwned(sb, s);
      ok := FreeBlocks(n);
      GoneCount(sb, s, owner);
      ghost var t, lg, ops, views := St(), logged, journal, seen;
      Grow(n, 0);
      if old(Tracked()) && old(logged) == {} {
        ClosesInRoom(sb, base, t.blk, lg, ops, views, journal, sb.IBlock(n), lg, sb.size / BPB + 2);
      }
      TruncDone(sb, s, t, St(), n);
    }

    ghost predicate AllMarked(s: State)
      requires Shape(sb, s)
    {
      forall c: nat :: c < sb.size ==> Marked(sb, s, c)
    }
  }
}
