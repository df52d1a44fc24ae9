/** What mkfs.c relies on: blocks are handed out in order, so that the free map can be written in
    one go at the end, and every file is mapped exactly as far as it reaches. */
module MkfsSpec {
  import opened Blocks
  import opened Collections
  import opened FsLayout
  import opened FsState
  import opened FsFile
  import opened FsCount
  import opened Fs
  import File

  // ---- The free map

  /** The block map with the first `k` blocks marked. */
  function MarkUpTo(sb: Super, blk: seq<Block>, k: nat): (r: seq<Block>)
    requires sb.Ok(|blk|) && k <= sb.size
    ensures |r| == |blk|
  {
    if k == 0 then blk
    else
      var m, x := MarkUpTo(sb, blk, k - 1), sb.BBlock(k - 1);
      m[x := SetBitIn(m[x], (k - 1) % BPB)]
  }

  predicate IsMap(sb: Super, x: int) { sb.bmapstart <= x < sb.DataStart() }

  lemma {:induction false} MarkOutside(sb: Super, blk: seq<Block>, k: nat, x: nat)
    requires sb.Ok(|blk|) && k <= sb.size && x < |blk| && !IsMap(sb, x)
    ensures MarkUpTo(sb, blk, k)[x] == blk[x]
  {
    if k > 0 { MarkOutside(sb, blk, k - 1, x); }
  }

  lemma {:induction false} MarkCommutes(sb: Super, blk: seq<Block>, k: nat, x: nat, data: Block)
    requires sb.Ok(|blk|) && k <= sb.size && x < |blk| && !IsMap(sb, x)
    ensures MarkUpTo(sb, blk[x := data], k) == MarkUpTo(sb, blk, k)[x := data]
  {
    if k > 0 { MarkCommutes(sb, blk, k - 1, x, data); }
  }

  ghost predicate MapsZero(sb: Super, blk: seq<Block>) {
    forall x :: 0 <= x < |blk| && IsMap(sb, x) ==> blk[x] == ZeroBlock
  }

  lemma {:induction false} MarkedUpTo(sb: Super, s: State, blk: seq<Block>, k: nat, c: nat)
    requires sb.Ok(|blk|) && k <= sb.size && c < sb.size && MapsZero(sb, blk) && s.blk == MarkUpTo(sb, blk, k)
    ensures Marked(sb, s, c) <==> c < k
    decreases k
  {
    if k == 0 {
      assert blk[sb.BBlock(c)] == ZeroBlock;
      ZeroBits(c % BPB % 8);
    } else {
      var m := MarkUpTo(sb, blk, k - 1);
      MarkedUpTo(sb, s.(blk := m), blk, k - 1, c);
      assert sb.BBlock(c) == sb.BBlock(k - 1) && c % BPB == (k - 1) % BPB ==> c == k - 1;
    }
  }

  // ---- Blocks in order

  /** Before the inodes there are the boot block, the super block, and a log in which nothing was ever
      written. */
  ghost predicate Preamble(sb: Super, blk: seq<Block>) {
    && 2 <= sb.inodestart <= |blk| && SuperOf(blk[1]) == sb
    && Word(blk[1], 3) as int == sb.inodestart - 2 && Word(blk[1], 4) == 2
    && forall b :: 2 <= b < sb.inodestart ==> blk[b] == ZeroBlock
  }

  /** The start of the image as mkfs writes it. */
  lemma PreambleWritten(sb: Super, blk: seq<Block>, words: seq<uint32>)
    requires sb.Ok(|blk|) && 2 <= sb.inodestart
    requires words == [sb.size, sb.nblocks, sb.ninodes, sb.inodestart - 2, 2, sb.inodestart, sb.bmapstart]
    requires blk[1] == PutWords(ZeroBlock, 0, words, |words|)
    requires forall b :: 2 <= b < sb.inodestart ==> blk[b] == ZeroBlock
    ensures Preamble(sb, blk)
  {
    PutGetWords(ZeroBlock, 0, words, 7);
    forall i: nat | i < 7 ensures Word(blk[1], i) == words[i] { WordIsGot(blk[1], 0, 7, i); }
  }

  /** The first free block is `f`: the data blocks before it are owned; it and all after it are
      zero, and so are the bitmap blocks, which are written last. */
  ghost predicate Packed(sb: Super, blk: seq<Block>, f: nat, owner: map<nat, Ref>) {
    && Preamble(sb, blk) && sb.Ok(|blk|) && |blk| == sb.size && sb.DataStart() <= f <= sb.size && MapsZero(sb, blk)
    && (forall b :: b in owner <==> sb.DataStart() <= b < f)
    && (forall b :: f <= b < sb.size ==> blk[b] == ZeroBlock)
  }

  /** The state that an unfinished image stands for: the free map marks the blocks before `f`. */
  ghost function StateOf(sb: Super, blk: seq<Block>, f: nat, ino: seq<Inode>, owner: map<nat, Ref>): State
    requires sb.Ok(|blk|) && f <= sb.size
  {
    State(MarkUpTo(sb, blk, f), ino, owner)
  }

  lemma PackedBound(sb: Super, blk: seq<Block>, f: nat, owner: map<nat, Ref>)
    requires Packed(sb, blk, f, owner)
    ensures sb.Ok(|blk|) && |blk| == sb.size && sb.DataStart() <= f <= sb.size
  {
  }

  lemma NextMarks(sb: Super, s: State, blk: seq<Block>, f: nat)
    requires sb.Ok(|blk|) && MapsZero(sb, blk) && f < sb.size && s.blk == MarkUpTo(sb, blk, f)
    ensures !Marked(sb, s, f) && forall c: nat :: c < f ==> Marked(sb, s, c)
  {
    MarkedUpTo(sb, s, blk, f, f);
    forall c: nat | c < f ensures Marked(sb, s, c) { MarkedUpTo(sb, s, blk, f, c); }
  }

  /** Taking the next block is what balloc would do. */
  lemma NextBlock(sb: Super, blk: seq<Block>, f: nat, ino: seq<Inode>, owner: map<nat, Ref>, r: Ref)
    requires Packed(sb, blk, f, owner) && f < sb.size && |ino| == sb.ninodes
    requires forall n :: 0 <= n < |ino| ==> ino[n].Ok()
    ensures
      var s := StateOf(sb, blk, f, ino, owner);
      && sb.IsData(f) && Shape(sb, s) && !Marked(sb, s, f) && (forall c: nat :: c < f ==> Marked(sb, s, c))
      && Allocated(sb, s, f) == StateOf(sb, blk, f + 1, ino, owner[f := Loose])
      && Packed(sb, blk, f + 1, owner[f := r])
  {
    hide Marked, MarkUpTo;
    var s := StateOf(sb, blk, f, ino, owner);
    NextMarks(sb, s, blk, f);
    NextAllocated(sb, s, blk, f);
    NextPacked(sb, blk, f, owner, r);
  }

  lemma NextAllocated(sb: Super, s: State, blk: seq<Block>, f: nat)
    requires sb.Ok(|blk|) && sb.IsData(f) && blk[f] == ZeroBlock && s.blk == MarkUpTo(sb, blk, f) && Shape(sb, s)
    ensures Allocated(sb, s, f).blk == MarkUpTo(sb, blk, f + 1)
  {
    hide SetBitIn;
    MarkOutside(sb, blk, f + 1, f);
    assert Allocated(sb, s, f).blk == MarkUpTo(sb, blk, f + 1);
  }

  lemma NextPacked(sb: Super, blk: seq<Block>, f: nat, owner: map<nat, Ref>, r: Ref)
    requires Packed(sb, blk, f, owner) && f < sb.size
    ensures Packed(sb, blk, f + 1, owner[f := r])
  {
  }

  lemma ShapedCount(sb: Super, blk: seq<Block>, f: nat, ino: seq<Inode>, owner: map<nat, Ref>)
    requires Packed(sb, blk, f, owner)
    ensures sb.Ok(|blk|) && |blk| == sb.size && sb.DataStart() <= f <= sb.size
    ensures |FreeSet(sb, StateOf(sb, blk, f, ino, owner))| == sb.size - f
  {
    FreeCount(sb, StateOf(sb, blk, f, ino, owner), f);
  }

  /** An address in use lies in the image; a place that is mapped stays as it is. */
  lemma DirectFacts(sb: Super, s: State, n: nat, i: nat)
    requires Owned(sb, s) && n < sb.ninodes && i <= NDIRECT
    ensures s.ino[n].addrs[i] < sb.size
    ensures s.ino[n].addrs[i] != 0 ==> RefMap(sb, s, s, Direct(n, i)) && Grown(sb, s, s, n)
  {
    assert RefOk(sb, s, Direct(n, i));
    if s.ino[n].addrs[i] != 0 {
      RefMapped(sb, s, Direct(n, i));
      GrownNone(sb, s, n);
    }
  }

  lemma EntryFacts(sb: Super, s: State, n: nat, j: nat)
    requires Owned(sb, s) && n < sb.ninodes && j < NINDIRECT
    ensures AddrOf(sb, s, Entry(n, j)) < sb.size
    ensures AddrOf(sb, s, Entry(n, j)) != 0 ==> RefMap(sb, s, s, Entry(n, j)) && Grown(sb, s, s, n)
  {
    assert RefOk(sb, s, Entry(n, j));
    if AddrOf(sb, s, Entry(n, j)) != 0 {
      RefMapped(sb, s, Entry(n, j));
      GrownNone(sb, s, n);
    }
  }

  lemma FreeCount(sb: Super, s: State, f: nat)
    requires sb.DataStart() <= f <= sb.size && 0 <= sb.DataStart()
    requires forall b :: b in s.owner <==> sb.DataStart() <= b < f
    ensures |FreeSet(sb, s)| == sb.size - f
  {
    assert FreeSet(sb, s) == Interval(f, sb.size);
  }

  /** Writing an owned block. */
  lemma PackedWrite(sb: Super, blk: seq<Block>, f: nat, owner: map<nat, Ref>, x: nat, data: Block)
    requires Packed(sb, blk, f, owner) && (x in owner || sb.inodestart <= x < sb.bmapstart)
    ensures x < |blk| && !IsMap(sb, x) && Packed(sb, blk[x := data], f, owner)
    ensures MarkUpTo(sb, blk[x := data], f) == MarkUpTo(sb, blk, f)[x := data] && MarkUpTo(sb, blk, f)[x] == blk[x]
  {
    MarkCommutes(sb, blk, f, x, data);
    MarkOutside(sb, blk, f, x);
  }

  /** The next block becomes an address of an inode. */
  lemma NextDirect(sb: Super, blk: seq<Block>, f: uint32, ino: seq<Inode>, owner: map<nat, Ref>, n: nat, i: nat)
    requires Packed(sb, blk, f, owner) && f < sb.size && Owned(sb, StateOf(sb, blk, f, ino, owner))
    requires n < sb.ninodes && i <= NDIRECT && ino[n].addrs[i] == 0
    ensures
      var ino', owner' := ino[n := ino[n].(addrs := ino[n].addrs[i := f])], owner[f as nat := Direct(n, i)];
      var s, t := StateOf(sb, blk, f, ino, owner), StateOf(sb, blk, f + 1, ino', owner');
      Packed(sb, blk, f + 1, owner') && RefMap(sb, s, t, Direct(n, i)) && Grown(sb, s, t, n)
  {
    hide Owned, Grown, RefMap, Marked, Packed, MarkUpTo;
    PackedBound(sb, blk, f, owner);
    var s := StateOf(sb, blk, f, ino, owner);
    OwnedShape(sb, s);
    NextBlock(sb, blk, f, ino, owner, Direct(n, i));
    DirectGrown(sb, s, n, i, f);
    DirectMap(sb, s, n, i, f);
    assert owner[f as nat := Loose][f as nat := Direct(n, i)] == owner[f as nat := Direct(n, i)];
  }

  /** The next block becomes an entry of the indirect block. */
  lemma NextEntry(sb: Super, blk: seq<Block>, f: uint32, ino: seq<Inode>, owner: map<nat, Ref>, n: nat, j: nat)
    requires Packed(sb, blk, f, owner) && f < sb.size && Owned(sb, StateOf(sb, blk, f, ino, owner))
    requires n < sb.ninodes && j < NINDIRECT && ino[n].addrs[NDIRECT] != 0
    requires AddrOf(sb, StateOf(sb, blk, f, ino, owner), Entry(n, j)) == 0
    ensures ino[n].addrs[NDIRECT] < |blk|
    ensures
      var ind := ino[n].addrs[NDIRECT];
      var blk', owner' := blk[ind := SetWord(blk[ind], j, f)], owner[f as nat := Entry(n, j)];
      var s, t := StateOf(sb, blk, f, ino, owner), StateOf(sb, blk', f + 1, ino, owner');
      && Packed(sb, blk', f + 1, owner') && RefMap(sb, s, t, Entry(n, j)) && Grown(sb, s, t, n)
      && AddrOf(sb, t, Entry(n, j)) == f
  {
    hide Owned, Grown, RefMap, Marked, Packed, MarkUpTo, SetWord;
    PackedBound(sb, blk, f, owner);
    var s := StateOf(sb, blk, f, ino, owner);
    DirectOwned(sb, s, n, NDIRECT);
    NextBlock(sb, blk, f, ino, owner, Entry(n, j));
    EntryGrown(sb, s, n, j, f);
    EntryMap(sb, s, n, j, f);
    EntryStored(sb, blk, f, ino, owner, n, j);
  }

  lemma EntryStored(sb: Super, blk: seq<Block>, f: uint32, ino: seq<Inode>, owner: map<nat, Ref>, n: nat, j: nat)
    requires f < sb.size && n < |ino| && ino[n].Ok() && ino[n].addrs[NDIRECT] as nat in owner && j < NINDIRECT
    requires Packed(sb, blk, f + 1, owner[f as nat := Entry(n, j)])
    ensures ino[n].addrs[NDIRECT] < |blk|
    ensures
      var ind := ino[n].addrs[NDIRECT];
      var blk', owner' := blk[ind := SetWord(blk[ind], j, f)], owner[f as nat := Entry(n, j)];
      var mid := StateOf(sb, blk, f + 1, ino, owner[f as nat := Loose]);
      Packed(sb, blk', f + 1, owner') && StateOf(sb, blk', f + 1, ino, owner') == WithEntry(mid, n, j, f)
  {
    hide Packed, MarkUpTo, SetWord;
    var ind, owner' := ino[n].addrs[NDIRECT], owner[f as nat := Entry(n, j)];
    PackedIn(sb, blk, f + 1, owner', ind);
    PackedWrite(sb, blk, f + 1, owner', ind, SetWord(blk[ind], j, f));
    assert owner[f as nat := Loose][f as nat := Entry(n, j)] == owner';
  }

  lemma PackedIn(sb: Super, blk: seq<Block>, f: nat, owner: map<nat, Ref>, x: nat)
    requires Packed(sb, blk, f, owner) && x in owner
    ensures x < |blk| && sb.Ok(|blk|) && f <= sb.size
  {
  }

  lemma MappedOwned(sb: Super, s: State, t: State, n: nat, bn: nat)
    requires Grown(sb, s, t, n) && bn < MAXFILE && AddrOf(sb, t, BRef(n, bn)) != 0
    ensures Owned(sb, t) && AddrOf(sb, t, BRef(n, bn)) in t.owner
  {
    assert RefOk(sb, t, BRef(n, bn));
  }

  // ---- How far a file is mapped

  function Ceil(size: nat): nat { (size + BSIZE - 1) / BSIZE }

  /** The blocks that a file of this size takes. */
  function BlocksFor(size: nat): nat { Ceil(size) + One(size > NDIRECT * BSIZE) }

  ghost predicate MappedAt(sb: Super, s: State, n: nat, bn: nat)
    requires Shape(sb, s) && n < sb.ninodes && bn < MAXFILE
  {
    AddrOf(sb, s, BRef(n, bn)) != 0 <==> bn < Ceil(s.ino[n].size)
  }

  /** File `n` has a block exactly where it has bytes. */
  ghost predicate Exact(sb: Super, s: State, n: nat)
    requires Shape(sb, s) && n < sb.ninodes
  {
    && (forall bn :: 0 <= bn < MAXFILE ==> MappedAt(sb, s, n, bn))
    && (s.ino[n].addrs[NDIRECT] != 0 <==> s.ino[n].size > NDIRECT * BSIZE)
  }

  lemma {:induction false} ExactHoles(sb: Super, s: State, n: nat, lo: nat, hi: nat)
    requires Shape(sb, s) && n < sb.ninodes && Exact(sb, s, n) && lo <= hi <= MAXFILE && lo <= Ceil(s.ino[n].size)
    ensures Holes(sb, s, n, lo, hi) == if hi <= Ceil(s.ino[n].size) then 0 else hi - Ceil(s.ino[n].size)
    decreases hi
  {
    if lo < hi {
      ExactHoles(sb, s, n, lo, hi - 1);
      assert MappedAt(sb, s, n, hi - 1);
    }
  }

  lemma UpToIsCeil(size: nat, cnt: nat)
    ensures size / BSIZE <= Ceil(size) <= Ceil(size + cnt)
    ensures 0 < cnt ==> UpTo(size, size + cnt) == Ceil(size + cnt)
    ensures size + cnt <= MAXBYTES ==> Ceil(size + cnt) <= MAXFILE
    ensures Ceil(size) > NDIRECT <==> size > NDIRECT * BSIZE
  {
  }

  /** An append costs the difference. */
  lemma AppendCost(sb: Super, s: State, n: nat, cnt: nat)
    requires Shape(sb, s) && n < sb.ninodes && Exact(sb, s, n) && s.ino[n].size + cnt <= MAXBYTES
    ensures Cost(sb, s, n, s.ino[n].size, cnt) + BlocksFor(s.ino[n].size) == BlocksFor(s.ino[n].size + cnt)
  {
    var size := s.ino[n].size as nat;
    UpToIsCeil(size, cnt);
    UpToIsCeil(size + cnt, 0);
    UpToMonotone(size, size, size + cnt);
    ExactHoles(sb, s, n, size / BSIZE, UpTo(size, size + cnt));
  }

  lemma AppendExact(sb: Super, s: State, t: State, n: nat, cnt: nat)
    requires Shape(sb, s) && n < sb.ninodes && Exact(sb, s, n) && s.ino[n].size + cnt <= MAXBYTES
    requires RangeMap(sb, s, t, n, s.ino[n].size / BSIZE, UpTo(s.ino[n].size, s.ino[n].size + cnt))
    requires t.ino[n].size == s.ino[n].size + cnt
    ensures Exact(sb, t, n)
  {
    var size := s.ino[n].size as nat;
    UpToIsCeil(size, cnt);
    UpToIsCeil(size + cnt, 0);
    var lo, hi := size / BSIZE, UpTo(size, size + cnt);
    forall bn | 0 <= bn < MAXFILE ensures MappedAt(sb, t, n, bn) {
      assert MappedAt(sb, s, n, bn);
      if !(lo <= bn < hi) { assert Stays(sb, s, t, BRef(n, bn)); }
    }
  }

  lemma OtherExact(sb: Super, s: State, t: State, n: nat, lo: nat, hi: nat, m: nat)
    requires RangeMap(sb, s, t, n, lo, hi) && m < sb.ninodes && m != n && t.ino[m].size == s.ino[m].size
    requires Exact(sb, s, m)
    ensures Exact(sb, t, m)
  {
    assert Stays(sb, s, t, Direct(m, NDIRECT));
    forall bn | 0 <= bn < MAXFILE ensures MappedAt(sb, t, m, bn) {
      assert MappedAt(sb, s, m, bn) && Stays(sb, s, t, BRef(m, bn));
    }
  }

  ghost predicate AllExact(sb: Super, s: State)
    requires Shape(sb, s)
  {
    forall n: nat :: n < sb.ninodes ==> Exact(sb, s, n)
  }

  // ---- Appending

  /** File `n` got longer by `data`; all other files and inodes are as they were. */
  ghost predicate Appended(sb: Super, s: State, u: State, n: nat, data: seq<byte>)
    requires Healthy(sb, s) && n < sb.ninodes
  {
    && Spliced(sb, s, u, n, s.ino[n].size, data)
    && u.ino[n].size == s.ino[n].size + |data|
    && u.ino[n].typ == s.ino[n].typ && u.ino[n].nlink == s.ino[n].nlink
  }

  lemma AppendStart(sb: Super, s: State, n: nat)
    requires Owned(sb, s) && n < sb.ninodes && FileOk(sb, s, n)
    ensures s.ino[n].size <= MAXBYTES && Progress(sb, s, s, n, s.ino[n].size, [])
    ensures RangeMap(sb, s, s, n, s.ino[n].size / BSIZE, UpTo(s.ino[n].size, s.ino[n].size))
  {
    ProgressStart(sb, s, n, s.ino[n].size);
    RangeStart(sb, s, n, s.ino[n].size, 0);
  }

  lemma AppendCosts(sb: Super, s: State, n: nat, cnt: nat)
    requires Shape(sb, s) && AllExact(sb, s) && n < sb.ninodes
    ensures s.ino[n].size + cnt <= MAXBYTES ==>
      Cost(sb, s, n, s.ino[n].size, cnt) + BlocksFor(s.ino[n].size) == BlocksFor(s.ino[n].size + cnt)
  {
    if s.ino[n].size + cnt <= MAXBYTES {
      assert Exact(sb, s, n);
      AppendCost(sb, s, n, cnt);
    }
  }

  lemma AppendPaid(sb: Super, s: State, t: State, n: nat, cnt: nat)
    requires Shape(sb, s) && n < sb.ninodes && s.ino[n].size + cnt <= MAXBYTES
    requires RangeMap(sb, s, t, n, s.ino[n].size / BSIZE, UpTo(s.ino[n].size, s.ino[n].size + cnt))
    ensures |FreeSet(sb, t)| + Cost(sb, s, n, s.ino[n].size, cnt) == |FreeSet(sb, s)|
  {
  }

  lemma AppendOwned(sb: Super, s: State, t: State, n: nat, data: seq<byte>)
    requires Shape(sb, s) && n < sb.ninodes && s.ino[n].size + |data| <= MAXBYTES
    requires Progress(sb, s, t, n, s.ino[n].size, data)
    ensures Owned(sb, SetSize(t, n, s.ino[n].size + |data|)) && Shape(sb, SetSize(t, n, s.ino[n].size + |data|))
  {
    ProgressFacts(sb, s, t, n, s.ino[n].size, data);
    SetSizeOwned(sb, t, n, s.ino[n].size + |data|);
  }

  lemma AppendDone(sb: Super, s: State, t: State, u: State, n: nat, data: seq<byte>)
    requires Healthy(sb, s) && AllExact(sb, s) && n < sb.ninodes && s.ino[n].size + |data| <= MAXBYTES
    requires Progress(sb, s, t, n, s.ino[n].size, data)
    requires RangeMap(sb, s, t, n, s.ino[n].size / BSIZE, UpTo(s.ino[n].size, s.ino[n].size + |data|))
    requires Updated(sb, SetSize(t, n, s.ino[n].size + |data|), u, n)
    ensures Appended(sb, s, u, n, data) && Healthy(sb, u) && Shape(sb, u) && AllExact(sb, u)
    ensures forall m :: 0 <= m < sb.ninodes && m != n ==> u.ino[m] == s.ino[m]
  {
    var off, lo := s.ino[n].size as nat, s.ino[n].size / BSIZE;
    var hi := UpTo(off, off + |data|);
    ProgressFacts(sb, s, t, n, off, data);
    RangeThenUpdate(sb, s, t, u, n, lo, hi, off + |data|);
    WriteBeyond(sb, s, t, u, n, off, data);
    AppendExacts(sb, s, u, n, data);
  }

  lemma AppendExacts(sb: Super, s: State, u: State, n: nat, data: seq<byte>)
    requires Healthy(sb, s) && AllExact(sb, s) && n < sb.ninodes && s.ino[n].size + |data| <= MAXBYTES
    requires RangeMap(sb, s, u, n, s.ino[n].size / BSIZE, UpTo(s.ino[n].size, s.ino[n].size + |data|))
    requires Appended(sb, s, u, n, data)
    ensures AllExact(sb, u)
  {
    hide RangeMap, UpTo, Exact;
    forall m: nat | m < sb.ninodes ensures Exact(sb, u, m) {
      assert Exact(sb, s, m) && Exact(sb, s, n);
      if m == n {
        AppendExact(sb, s, u, n, |data|);
      } else {
        OtherExact(sb, s, u, n, s.ino[n].size / BSIZE, UpTo(s.ino[n].size, s.ino[n].size + |data|), m);
      }
    }
  }

  // ---- Inodes

  const ZeroInode: Inode := Inode(0, 0, 0, 0, 0, seq(NDIRECT + 1, i => 0))

  /** The state with another inode `n` of the same addresses. */
  ghost function SetInode(s: State, n: nat, ip: Inode): State
    requires n < |s.ino|
  {
    s.(ino := s.ino[n := ip])
  }

  lemma SetInodeOwned(sb: Super, s: State, n: nat, ip: Inode)
    requires Owned(sb, s) && n < sb.ninodes && ip.addrs == s.ino[n].addrs
    ensures Owned(sb, SetInode(s, n, ip)) && SameFiles(sb, s, SetInode(s, n, ip))
    ensures SameAddrs(sb, s, SetInode(s, n, ip))
  {
    var t := SetInode(s, n, ip);
    forall r | Names(sb, r) ensures AddrOf(sb, t, r) == AddrOf(sb, s, r) && RefOk(sb, t, r) {
      assert RefOk(sb, s, r);
    }
    forall c | c in t.owner ensures BlockOk(sb, t, c) { assert BlockOk(sb, s, c); }
    forall c: nat | c < sb.size ensures BitOk(sb, t, c) { assert BitOk(sb, s, c); }
  }

  /** Storing inode `n` with other fields than the addresses: nothing moves, and the state is
      healthy again if this inode's size fits its blocks. */
  lemma SetInodeDone(sb: Super, s: State, u: State, n: nat, ip: Inode)
    requires Healthy(sb, s) && n < sb.ninodes && ip.addrs == s.ino[n].addrs && Updated(sb, SetInode(s, n, ip), u, n)
    ensures Shape(sb, u) && u.ino == s.ino[n := ip] && SameFiles(sb, s, u) && SameAddrs(sb, s, u)
    ensures Healthy(sb, u) <==> FileOk(sb, u, n)
    ensures forall m: nat :: m < sb.ninodes ==> Synced(sb, u, m)
  {
    var t := SetInode(s, n, ip);
    SetInodeOwned(sb, s, n, ip);
    assert FileOk(sb, u, n) ==> InodeOk(sb, u, n);
    assert Healthy(sb, u) ==> InodeOk(sb, u, n);
    forall m: nat | m < sb.ninodes && m != n ensures InodeOk(sb, u, m) && Synced(sb, u, m) {
      assert InodeOk(sb, s, m) && Synced(sb, t, m);
      SameAddrsMapped(sb, s, u, m, s.ino[m].size);
    }
  }

  /** ialloc's inode: unused, now of type `typ` with one link. */
  lemma AllocDone(sb: Super, s: State, u: State, n: nat, ip: Inode)
    requires Healthy(sb, s) && AllExact(sb, s) && n < sb.ninodes && s.ino[n] == ZeroInode
    requires ip.addrs == ZeroInode.addrs && ip.size == 0 && Updated(sb, SetInode(s, n, ip), u, n)
    ensures Healthy(sb, u) && AllExact(sb, u) && u.ino == s.ino[n := ip]
    ensures forall m: nat :: m < sb.ninodes ==> FileIs(sb, u, m, ContentOf(sb, s, m))
  {
    SetInodeDone(sb, s, u, n, ip);
    forall m: nat | m < sb.ninodes ensures Exact(sb, u, m) {
      assert Exact(sb, s, m);
      forall bn | 0 <= bn < MAXFILE ensures MappedAt(sb, u, m, bn) {
        assert MappedAt(sb, s, m, bn) && AddrOf(sb, u, BRef(m, bn)) == AddrOf(sb, s, BRef(m, bn));
      }
    }
    forall m: nat | m < sb.ninodes ensures FileIs(sb, u, m, ContentOf(sb, s, m)) {
      assert InodeOk(sb, s, m);
      SameBytes(sb, s, u, m, s.ino[m].size);
    }
  }

  // ---- The empty image

  /** The image before anything is in it: no block is owned, no inode is used. */
  lemma EmptyHealthy(sb: Super, blk: seq<Block>, ino: seq<Inode>)
    requires sb.Ok(|blk|) && |blk| == sb.size && MapsZero(sb, blk)
    requires ino == seq(sb.ninodes, n => ZeroInode)
    requires forall x :: sb.inodestart <= x < sb.bmapstart ==> blk[x] == ZeroBlock
    ensures Healthy(sb, StateOf(sb, blk, sb.DataStart(), ino, map[]))
    ensures AllExact(sb, StateOf(sb, blk, sb.DataStart(), ino, map[]))
  {
    var s := StateOf(sb, blk, sb.DataStart(), ino, map[]);
    forall r | Names(sb, r) ensures AddrOf(sb, s, r) == 0 && RefOk(sb, s, r) {}
    forall c: nat | c < sb.size ensures BitOk(sb, s, c) { MarkedUpTo(sb, s, blk, sb.DataStart(), c); }
    forall n: nat | n < sb.ninodes ensures InodeOk(sb, s, n) && Exact(sb, s, n) {
      MarkOutside(sb, blk, sb.DataStart(), sb.IBlock(n));
      ZeroSlot(n % IPB);
      forall bn | 0 <= bn < MAXFILE ensures MappedAt(sb, s, n, bn) { assert AddrOf(sb, s, BRef(n, bn)) == 0; }
    }
  }

  lemma ZeroSlot(k: nat)
    requires k < IPB
    ensures Slot(ZeroBlock, k) == Encode(ZeroInode)
  {
    ZeroWords(DWORDS * k, DWORDS);
    assert Encode(ZeroInode) == seq(DWORDS, i => 0);
  }

  lemma {:induction false} ZeroWords(at: nat, n: nat)
    requires at + n <= NWORDS
    ensures GetWords(ZeroBlock, at, n) == seq(n, i => 0)
  {
    if n > 0 {
      ZeroWords(at, n - 1);
      ZeroWord(at + n - 1);
    }
  }

  // ---- The size of the root directory

  /** The size that mkfs gives the root directory after having appended `off` bytes to it. */
  function RootSize(off: nat): nat { (off / BSIZE + 1) * BSIZE }

  /** mkfs leaves the root directory without a hole if and only if what it appended does not end
      on a block boundary. */
  lemma RootHasNoHole(sb: Super, s: State, t: State, n: nat)
    requires Shape(sb, s) && Shape(sb, t) && n < sb.ninodes && Exact(sb, s, n) && s.ino[n].size <= MAXBYTES
    requires forall bn :: 0 <= bn < MAXFILE ==> Stays(sb, s, t, BRef(n, bn))
    requires t.ino[n].size == RootSize(s.ino[n].size)
    ensures FileOk(sb, t, n) <==> s.ino[n].size % BSIZE != 0
  {
    var off := s.ino[n].size as nat;
    var last := off / BSIZE;
    assert last * BSIZE < RootSize(off);
    if off % BSIZE == 0 {
      if last < MAXFILE {
        assert MappedAt(sb, s, n, last) && Stays(sb, s, t, BRef(n, last));
      }
      assert FileOk(sb, t, n) ==> BnMapped(sb, t, n, last);
    } else {
      forall bn: nat | bn * BSIZE < RootSize(off) ensures BnMapped(sb, t, n, bn) {
        assert bn <= last;
        assert MappedAt(sb, s, n, bn) && Stays(sb, s, t, BRef(n, bn));
      }
    }
  }

  lemma FixedRoot(sb: Super, s: State, u: State, n: nat)
    requires Healthy(sb, s) && AllExact(sb, s) && n < sb.ninodes && Shape(sb, u) && SameAddrs(sb, s, u)
    requires u.ino[n].size == RootSize(s.ino[n].size)
    ensures FileOk(sb, u, n) <==> s.ino[n].size % BSIZE != 0
  {
    assert Exact(sb, s, n) && InodeOk(sb, s, n);
    forall bn | 0 <= bn < MAXFILE ensures Stays(sb, s, u, BRef(n, bn)) {}
    RootHasNoHole(sb, s, u, n);
  }

  lemma FirstMap(sb: Super, blk: seq<Block>, f: nat, owner: map<nat, Ref>)
    requires Packed(sb, blk, f, owner)
    ensures sb.bmapstart < |blk| && blk[sb.bmapstart] == ZeroBlock
  {
  }

  lemma PreambleStays(sb: Super, blk: seq<Block>, f: nat, owner: map<nat, Ref>, data: Block)
    requires Packed(sb, blk, f, owner)
    ensures sb.bmapstart < |blk| && Preamble(sb, blk[sb.bmapstart := data])
  {
  }

  lemma MarkNone(sb: Super, blk: seq<Block>)
    requires sb.Ok(|blk|)
    ensures MarkUpTo(sb, blk, 0) == blk
  {
  }

  /** One turn of balloc's loop. */
  lemma MarkFirst(sb: Super, blk: seq<Block>, i: nat, buf: Block)
    requires sb.Ok(|blk|) && i < sb.size && i < BPB && MarkUpTo(sb, blk, i) == blk[sb.bmapstart := buf]
    ensures MarkUpTo(sb, blk, i + 1) == blk[sb.bmapstart := SetBitIn(buf, i)]
  {
  }

  // ---- What main puts in

  const ROOTINO: nat := 1
  const DIRSIZ: nat := 14
  const DIRENT: nat := 16      // bytes in a struct dirent

  /** A directory entry; strncpy cuts the name or pads it with zeros. */
  function Dirent(inum: uint16, name: seq<byte>): (d: seq<byte>)
    ensures |d| == DIRENT
  {
    [inum % 0x100, inum / 0x100] +
    if |name| < DIRSIZ then name + Zeros(DIRSIZ - |name|) else name[..DIRSIZ]
  }

  const SLASH: byte := 0x2f
  const UNDERSCORE: byte := 0x5f
  const DOT: byte := 0x2e

  /** A file of the host: its name on the command line and its bytes. */
  datatype HostFile = HostFile(name: seq<byte>, content: seq<byte>) {
    /** The name without the underscore that keeps the host from running it. */
    function Stored(): seq<byte> { if name != [] && name[0] == UNDERSCORE then name[1..] else name }
  }

  /** The root directory after `files`. */
  function Entries(files: seq<HostFile>): (d: seq<byte>)
    requires |files| + 2 < 0x1_0000
    ensures |d| == DIRENT * (|files| + 2)
  {
    if files == [] then Dirent(ROOTINO, [DOT]) + Dirent(ROOTINO, [DOT, DOT])
    else
      var k := |files| - 1;
      Entries(files[..k]) + Dirent(k + 2, files[k].Stored())
  }

  // ---- The directory as bytes

  /** The inode number of entry `i` of a directory. */
  function Number(d: seq<byte>, i: nat): nat
    requires 16 * i + 16 <= |d|
  {
    d[16 * i] as nat + 0x100 * d[16 * i + 1] as nat
  }

  /** The bytes from `at` on, up to a zero and at most `n` of them. */
  function NameAt(d: seq<byte>, at: nat, n: nat): seq<byte>
    requires at + n <= |d|
    decreases n
  {
    if n == 0 || d[at] == 0 then [] else [d[at]] + NameAt(d, at + 1, n - 1)
  }

  /** The name of entry `i` of a directory. */
  function Name(d: seq<byte>, i: nat): seq<byte>
    requires 16 * i + 16 <= |d|
  {
    NameAt(d, 16 * i + 2, 14)
  }

  /** A name of the host as far as it is kept: without one leading underscore, cut at 14 bytes. */
  predicate Keeps(name: seq<byte>, kept: seq<byte>) {
    var n := if |name| > 0 && name[0] == 0x5f then name[1..] else name;
    if |n| <= 14 then kept == n else kept == n[..14]
  }

  /** The directory has `.` and `..` for inode 1, then the files under their names, from inode 2 on. Names
      of the host are C strings, without a zero. */
  predicate Lists(d: seq<byte>, files: seq<HostFile>) {
    && |d| == 16 * (|files| + 2)
    && Number(d, 0) == 1 && Name(d, 0) == [0x2e] && Number(d, 1) == 1 && Name(d, 1) == [0x2e, 0x2e]
    && forall k :: 0 <= k < |files| ==> Listed(d, files[k], k + 2)
  }

  predicate Listed(d: seq<byte>, f: HostFile, i: nat) {
    16 * i + 16 <= |d| && Number(d, i) == i && (0 !in f.name ==> Keeps(f.name, Name(d, i)))
  }

  lemma {:induction false} NameIs(d: seq<byte>, at: nat, n: nat, w: seq<byte>)
    requires at + n <= |d| && |w| <= n && 0 !in w && (|w| < n ==> d[at + |w|] == 0)
    requires forall j :: 0 <= j < |w| ==> d[at + j] == w[j]
    ensures NameAt(d, at, n) == w
    decreases n
  {
    if |w| > 0 {
      assert w[0] in w && w == [w[0]] + w[1..];
      NameIs(d, at + 1, n - 1, w[1..]);
    }
  }

  /** Entry `i` of `d` is the one for `inum` and `name`. */
  lemma EntryReads(d: seq<byte>, i: nat, inum: uint16, name: seq<byte>)
    requires 16 * i + 16 <= |d| && d[16 * i..16 * i + 16] == Dirent(inum, name)
    ensures Number(d, i) == inum as nat
    ensures 0 !in name ==> Name(d, i) == if |name| <= 14 then name else name[..14]
  {
    var e := d[16 * i..16 * i + 16];
    forall j | 0 <= j < 16 ensures d[16 * i + j] == e[j] {}
    assert e[0] == d[16 * i] && e[1] == d[16 * i + 1];
    if 0 !in name {
      var w := if |name| <= 14 then name else name[..14];
      forall j | 0 <= j < |w| ensures d[16 * i + 2 + j] == w[j] { assert d[16 * i + (2 + j)] == e[2 + j]; }
      if |w| < 14 { assert d[16 * i + (2 + |w|)] == e[2 + |w|]; }
      NameIs(d, 16 * i + 2, 14, w);
    }
  }

  lemma SliceFront(a: seq<byte>, b: seq<byte>, lo: nat, hi: nat)
    requires lo <= hi <= |a|
    ensures (a + b)[lo..hi] == a[lo..hi]
  {
  }

  lemma SliceBack(a: seq<byte>, b: seq<byte>)
    ensures (a + b)[|a|..|a| + |b|] == b
  {
  }

  /** What entry `i` is made from. */
  function EntryOf(files: seq<HostFile>, i: nat): (d: seq<byte>)
    requires i < |files| + 2 < 0x1_0000
    ensures |d| == 16
  {
    if i == 0 then Dirent(1, [0x2e]) else if i == 1 then Dirent(1, [0x2e, 0x2e]) else Dirent(i, files[i - 2].Stored())
  }

  lemma FirstTwo(i: nat)
    requires i < 2
    ensures Entries([])[16 * i..16 * i + 16] == EntryOf([], i)
  {
    hide Dirent;
    var a, b := Dirent(1, [0x2e]), Dirent(1, [0x2e, 0x2e]);
    if i == 0 { SliceFront(a, b, 0, 16); } else { SliceBack(a, b); }
  }

  lemma LastEntry(files: seq<HostFile>)
    requires files != [] && |files| + 2 < 0x1_0000
    ensures Entries(files) == Entries(files[..|files| - 1]) + EntryOf(files, |files| + 1)
  {
    hide Dirent;
  }

  lemma SameEntry(files: seq<HostFile>, i: nat)
    requires i < |files| + 1 && |files| + 2 < 0x1_0000
    ensures files != [] ==> EntryOf(files, i) == EntryOf(files[..|files| - 1], i)
  {
    hide Dirent;
  }

  lemma {:induction false} EntryAt(files: seq<HostFile>, i: nat)
    requires i < |files| + 2 < 0x1_0000
    ensures Entries(files)[16 * i..16 * i + 16] == EntryOf(files, i)
  {
    hide Entries, EntryOf;
    if files == [] {
      FirstTwo(i);
    } else {
      var k := |files| - 1;
      var a, b := Entries(files[..k]), EntryOf(files, k + 2);
      LastEntry(files);
      if i < k + 2 {
        SameEntry(files, i);
        EntryAt(files[..k], i);
        SliceFront(a, b, 16 * i, 16 * i + 16);
      } else {
        SliceBack(a, b);
      }
    }
  }

  lemma FileListed(files: seq<HostFile>, k: nat)
    requires k < |files| && |files| + 2 < 0x1_0000
    ensures Listed(Entries(files), files[k], k + 2)
  {
    hide Entries, Dirent, Number, Name;
    EntryAt(files, k + 2);
    EntryReads(Entries(files), k + 2, k + 2, files[k].Stored());
    var f := files[k];
    forall b | b in f.Stored() ensures b in f.name { assert f.Stored() == f.name || f.Stored() == f.name[1..]; }
  }

  lemma EntriesList(files: seq<HostFile>)
    requires |files| + 2 < 0x1_0000
    ensures Lists(Entries(files), files)
  {
    hide Entries, Dirent, Number, Name, Listed;
    var d, dot, dots: seq<byte> := Entries(files), [0x2e], [0x2e, 0x2e];
    assert 0 !in dot && 0 !in dots;
    EntryAt(files, 0);
    EntryReads(d, 0, 1, dot);
    EntryAt(files, 1);
    EntryReads(d, 1, 1, dots);
    forall k | 0 <= k < |files| ensures Listed(d, files[k], k + 2) { FileListed(files, k); }
  }

  /** The blocks that `files` take. */
  function Sum(files: seq<HostFile>): nat {
    if files == [] then 0
    else Sum(files[..|files| - 1]) + BlocksFor(|files[|files| - 1].content|)
  }

  /** mkfs succeeds on these: no name is empty or has a slash, no file is too long, and there is room
      for all of them and the root directory. */
  predicate Fit(sb: Super, files: seq<HostFile>) {
    && (forall f :: f in files ==> f.name != [] && SLASH !in f.name && |f.content| <= MAXBYTES)
    && DIRENT * (|files| + 2) <= MAXBYTES
    && sb.DataStart() + BlocksFor(DIRENT * (|files| + 2)) + Sum(files) <= sb.size
  }

  /** Fewer files take no more room. */
  lemma {:induction false} FitPrefix(sb: Super, files: seq<HostFile>, k: nat)
    requires k <= |files| && Fit(sb, files)
    ensures Fit(sb, files[..k]) && forall f :: f in files[..k] ==> f in files
    decreases |files|
  {
    if k == |files| {
      assert files[..k] == files;
    } else {
      var g := files[..|files| - 1];
      UpToIsCeil(DIRENT * (|g| + 2), DIRENT);
      FitPrefix(sb, g, k);
      assert g[..k] == files[..k];
    }
  }

  lemma AppendedNone(sb: Super, s: State, n: nat)
    requires Healthy(sb, s) && n < sb.ninodes
    ensures Appended(sb, s, s, n, [])
  {
    File.SplicedNone(sb, s, n, s.ino[n].size);
  }

  lemma AppendedTrans(sb: Super, s: State, t: State, u: State, n: nat, p: seq<byte>, q: seq<byte>)
    requires Healthy(sb, s) && n < sb.ninodes && Appended(sb, s, t, n, p) && Healthy(sb, t)
    requires Appended(sb, t, u, n, q)
    ensures Appended(sb, s, u, n, p + q)
  {
    hide Healthy, Spliced;
    HealthyFile(sb, s, n);
    HealthyFile(sb, t, n);
    File.SplicedTrans(sb, s, t, u, n, s.ino[n].size, p, q);
  }

  lemma BlocksForNone()
    ensures BlocksFor(0) == 0
  {
  }

  lemma BlocksForGrows(a: nat, b: nat)
    requires a <= b
    ensures BlocksFor(a) <= BlocksFor(b)
  {
    UpToIsCeil(a, b - a);
  }

  /** The root directory lists the files, and each file has its bytes. */
  ghost predicate Made(sb: Super, s: State, files: seq<HostFile>) {
    && Healthy(sb, s) && |files| + 2 <= sb.ninodes < 0x1_0000
    && FileIs(sb, s, ROOTINO, Entries(files))
    && forall i: nat :: i < |files| ==> FileIs(sb, s, i + 2, files[i].content)
  }

  lemma AppendedIs(sb: Super, s: State, u: State, n: nat, c: seq<byte>, data: seq<byte>)
    requires Healthy(sb, s) && n < sb.ninodes && FileIs(sb, s, n, c) && Appended(sb, s, u, n, data)
    ensures Healthy(sb, u) && FileIs(sb, u, n, c + data)
  {
  }

  lemma AppendedOther(sb: Super, s: State, u: State, n: nat, data: seq<byte>, m: nat, c: seq<byte>)
    requires Healthy(sb, s) && n < sb.ninodes && Appended(sb, s, u, n, data)
    requires m < sb.ninodes && m != n && FileIs(sb, s, m, c)
    ensures Healthy(sb, u) && FileIs(sb, u, m, c)
  {
  }

  /** A file that neither append is for. */
  lemma StillThere(sb: Super, s: State, t: State, u: State, v: State, n: nat, d: seq<byte>, c: seq<byte>, m: nat,
                   e: seq<byte>)
    requires Healthy(sb, s) && Healthy(sb, t) && Healthy(sb, u) && n < sb.ninodes && ROOTINO < sb.ninodes
    requires m < sb.ninodes && m != ROOTINO && m != n && FileIs(sb, s, m, e) && FileIs(sb, t, m, ContentOf(sb, s, m))
    requires Appended(sb, t, u, ROOTINO, d) && Appended(sb, u, v, n, c)
    ensures Healthy(sb, v) && FileIs(sb, v, m, e)
  {
    hide Healthy, Appended;
    AppendedOther(sb, t, u, ROOTINO, d, m, e);
    AppendedOther(sb, u, v, n, c, m, e);
  }

  lemma EntriesAdd(files: seq<HostFile>, f: HostFile)
    requires |files| + 3 < 0x1_0000
    ensures Entries(files + [f]) == Entries(files) + Dirent(|files| + 2, f.Stored())
  {
    assert (files + [f])[..|files|] == files;
  }

  lemma MadeStep(sb: Super, s: State, t: State, u: State, v: State, files: seq<HostFile>, f: HostFile)
    requires Made(sb, s, files) && |files| + 2 < sb.ninodes && Healthy(sb, t) && |t.ino| == sb.ninodes
    requires t.ino[|files| + 2].size == 0
    requires forall m: nat :: m < sb.ninodes && m != |files| + 2 ==> FileIs(sb, t, m, ContentOf(sb, s, m))
    requires Appended(sb, t, u, ROOTINO, Dirent(|files| + 2, f.Stored())) && Healthy(sb, u)
    requires Appended(sb, u, v, |files| + 2, f.content)
    ensures Made(sb, v, files + [f])
  {
    hide Healthy, Appended, Dirent, Entries, FileIs;
    var n, d, g := |files| + 2, Dirent(|files| + 2, f.Stored()), files + [f];
    EntriesAdd(files, f);
    RootGrew(sb, s, t, u, v, n, Entries(files), d, f.content);
    NewFile(sb, t, u, v, n, d, f.content);
    forall i: nat | i < |g| ensures FileIs(sb, v, i + 2, g[i].content) {
      if i < |files| { StillThere(sb, s, t, u, v, n, d, f.content, i + 2, files[i].content); }
    }
  }

  lemma RootGrew(sb: Super, s: State, t: State, u: State, v: State, n: nat, c: seq<byte>, d: seq<byte>, e: seq<byte>)
    requires Healthy(sb, s) && Healthy(sb, t) && Healthy(sb, u)
    requires n < sb.ninodes && ROOTINO < sb.ninodes && n != ROOTINO
    requires FileIs(sb, s, ROOTINO, c) && FileIs(sb, t, ROOTINO, ContentOf(sb, s, ROOTINO))
    requires Appended(sb, t, u, ROOTINO, d) && Appended(sb, u, v, n, e)
    ensures Healthy(sb, v) && FileIs(sb, v, ROOTINO, c + d)
  {
    hide Healthy, Appended;
    AppendedIs(sb, t, u, ROOTINO, c, d);
    AppendedOther(sb, u, v, n, e, ROOTINO, c + d);
  }

  lemma NewFile(sb: Super, t: State, u: State, v: State, n: nat, d: seq<byte>, e: seq<byte>)
    requires Healthy(sb, t) && Healthy(sb, u) && n < sb.ninodes && ROOTINO < sb.ninodes && n != ROOTINO
    requires |t.ino| == sb.ninodes && t.ino[n].size == 0
    requires Appended(sb, t, u, ROOTINO, d) && Appended(sb, u, v, n, e)
    ensures Healthy(sb, v) && FileIs(sb, v, n, e)
  {
    hide Healthy, Appended;
    assert FileIs(sb, t, n, []);
    AppendedOther(sb, t, u, ROOTINO, d, n, []);
    AppendedIs(sb, u, v, n, [], e);
    assert [] + e == e;
  }

  /** The root directory with its first two entries. */
  lemma MadeRoot(sb: Super, s: State, t: State, u: State)
    requires Healthy(sb, s) && 2 <= sb.ninodes < 0x1_0000 && s.ino[ROOTINO].size == 0
    requires Appended(sb, s, t, ROOTINO, Dirent(ROOTINO, [DOT])) && Healthy(sb, t)
    requires Appended(sb, t, u, ROOTINO, Dirent(ROOTINO, [DOT, DOT]))
    ensures Made(sb, u, [])
  {
    hide Healthy, Appended, Dirent;
    var d, e := Dirent(ROOTINO, [DOT]), Dirent(ROOTINO, [DOT, DOT]);
    assert FileIs(sb, s, ROOTINO, []);
    AppendedIs(sb, s, t, ROOTINO, [], d);
    assert [] + d == d;
    AppendedIs(sb, t, u, ROOTINO, d, e);
  }

  lemma FitStep(sb: Super, files: seq<HostFile>, k: nat)
    requires k < |files| && Fit(sb, files[..k])
    ensures files[..k + 1] == files[..k] + [files[k]]
    ensures Sum(files[..k + 1]) == Sum(files[..k]) + BlocksFor(|files[k].content|)
    ensures Fit(sb, files[..k + 1]) <==>
      && files[k].name != [] && SLASH !in files[k].name
      && |files[k].content| <= MAXBYTES && DIRENT * (k + 3) <= MAXBYTES
      && sb.DataStart() + BlocksFor(DIRENT * (k + 3)) + Sum(files[..k]) + BlocksFor(|files[k].content|) <= sb.size
    ensures Fit(sb, files) ==> Fit(sb, files[..k + 1])
  {
    hide BlocksFor;
    assert files[..k + 1][..k] == files[..k] && files[k] in files[..k + 1];
    if Fit(sb, files) { FitPrefix(sb, files, k + 1); }
  }

  /** The image, read from disk, is a healthy file system. */
  ghost predicate Mountable(sb: Super, d: seq<Block>)
    requires sb.Ok(|d|)
  {
    exists owner :: Healthy(sb, State(d, Decoded(sb, d), owner))
  }

  /** Whether a file has a hole does not depend on who owns what. */
  lemma HoleStays(sb: Super, s: State, n: nat)
    requires Shape(sb, s) && n < sb.ninodes && s.ino == Decoded(sb, s.blk) && (FileOk(sb, s, n) ==> Healthy(sb, s))
    ensures Mountable(sb, s.blk) <==> FileOk(sb, s, n)
  {
    if FileOk(sb, s, n) {
      assert Healthy(sb, State(s.blk, Decoded(sb, s.blk), s.owner));
    }
    if owner :| Healthy(sb, State(s.blk, Decoded(sb, s.blk), owner)) {
      var t := State(s.blk, s.ino, owner);
      assert InodeOk(sb, t, n);
      forall bn: nat | bn * BSIZE < s.ino[n].size ensures BnMapped(sb, s, n, bn) { assert BnMapped(sb, t, n, bn); }
    }
  }

  /** What can be read from the image, whether or not the root directory has a hole. */
  ghost predicate Holds(sb: Super, s: State, files: seq<HostFile>) {
    && Shape(sb, s) && |files| + 2 <= sb.ninodes < 0x1_0000 && DIRENT * (|files| + 2) <= MAXBYTES
    && s.ino[ROOTINO].size == RootSize(DIRENT * (|files| + 2))
    && Bytes(sb, s, ROOTINO, DIRENT * (|files| + 2)) == Entries(files)
    && forall i: nat :: i < |files| ==> HasBytes(sb, s, i + 2, files[i].content)
  }

  ghost predicate HasBytes(sb: Super, s: State, n: nat, c: seq<byte>)
    requires Shape(sb, s)
  {
    n < sb.ninodes && s.ino[n].size == |c| <= MAXBYTES && Content(sb, s, n) == c
  }

  lemma FileBytes(sb: Super, s: State, u: State, n: nat, c: seq<byte>)
    requires Healthy(sb, s) && n < sb.ninodes && FileIs(sb, s, n, c) && Shape(sb, u) && SameFiles(sb, s, u)
    ensures Shape(sb, s) && s.ino[n].size == |c| <= MAXBYTES && Bytes(sb, u, n, |c|) == c
  {
    hide Owned, SameFiles;
    HealthyFile(sb, s, n);
    SameBytes(sb, s, u, n, s.ino[n].size);
  }

  lemma MadeHolds(sb: Super, s: State, u: State, files: seq<HostFile>)
    requires Made(sb, s, files) && Shape(sb, u) && SameFiles(sb, s, u) && |s.ino| == sb.ninodes
    requires u.ino == s.ino[ROOTINO := s.ino[ROOTINO].(size := u.ino[ROOTINO].size)]
    requires s.ino[ROOTINO].size == DIRENT * (|files| + 2) && u.ino[ROOTINO].size == RootSize(s.ino[ROOTINO].size)
    ensures Holds(sb, u, files)
  {
    hide Healthy, FileIs, SameFiles, Entries, Bytes, RootSize;
    FileBytes(sb, s, u, ROOTINO, Entries(files));
    forall i: nat | i < |files| ensures HasBytes(sb, u, i + 2, files[i].content) {
      FileBytes(sb, s, u, i + 2, files[i].content);
    }
  }

  /** Empty files take no blocks. */
  lemma {:induction false} EmptyFilesFit(sb: Super, files: seq<HostFile>)
    requires forall f :: f in files ==> f.name != [] && SLASH !in f.name && f.content == []
    requires |files| + 2 <= 32 && sb.DataStart() < sb.size
    ensures Fit(sb, files) && Sum(files) == 0
  {
    if files != [] {
      var g := files[..|files| - 1];
      assert files[|files| - 1] in files;
      EmptyFilesFit(sb, g);
    }
  }
}
