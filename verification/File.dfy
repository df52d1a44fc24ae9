/** Open files on inodes: filewrite's chunking and fileread, from file.c. */
module File {
  import opened Blocks
  import opened Collections
  import opened FsLayout
  import opened FsState
  import opened FsFile
  import opened FsCount
  import opened Bio
  import opened Fs
  import opened Journal
  import LogSpec

  /** The largest chunk that filewrite gives to one transaction. */
  const CHUNK: nat := (LogSpec.MAXOPBLOCKS - 1 - 1 - 2) / 2 * BSIZE

  /** At any offset a chunk logs no more than one operation may: unaligned it spans four
      blocks, of which the first was mapped; that case uses the reservation up exactly. */
  lemma ChunkFits(off: nat, n: nat)
    requires n <= CHUNK
    ensures LogBound(off, off + n) <= LogSpec.MAXOPBLOCKS
    ensures n == CHUNK && off % BSIZE != 0 ==> LogBound(off, off + n) == LogSpec.MAXOPBLOCKS
  {
    if 0 < n {
      assert (off + n - 1) / BSIZE - off / BSIZE + 1 <= if off % BSIZE == 0 then 3 else 4;
    }
  }

  lemma SpliceTwice(c: seq<byte>, off: nat, p: seq<byte>, q: seq<byte>)
    requires off <= |c|
    ensures off + |p| <= |Splice(c, off, p)|
    ensures Splice(Splice(c, off, p), off + |p|, q) == Splice(c, off, p + q)
  {
  }

  lemma SpliceNone(c: seq<byte>, off: nat)
    requires off <= |c|
    ensures Splice(c, off, []) == c
  {
  }

  lemma SplicedNone(sb: Super, s: State, n: nat, off: nat)
    requires Healthy(sb, s) && n < sb.ninodes && off <= s.ino[n].size
    ensures Spliced(sb, s, s, n, off, [])
  {
    SpliceNone(ContentOf(sb, s, n), off);
  }

  lemma SplicedTrans(sb: Super, s: State, t: State, u: State, n: nat, off: nat, p: seq<byte>, q: seq<byte>)
    requires Healthy(sb, s) && n < sb.ninodes && off <= s.ino[n].size && Spliced(sb, s, t, n, off, p)
    requires off + |p| <= t.ino[n].size && Spliced(sb, t, u, n, off + |p|, q)
    ensures Spliced(sb, s, u, n, off, p + q)
  {
    hide InodeOk, RefOk, BlockOk, BitOk;
    SpliceTwice(ContentOf(sb, s, n), off, p, q);
    assert FileIs(sb, t, n, Splice(ContentOf(sb, s, n), off, p));
    forall m: nat | m < sb.ninodes && m != n ensures u.ino[m] == s.ino[m] && FileIs(sb, u, m, ContentOf(sb, s, m)) {
      assert FileIs(sb, t, m, ContentOf(sb, s, m));
      assert FileIs(sb, u, m, ContentOf(sb, t, m));
    }
  }

  lemma SplicedSize(sb: Super, s: State, t: State, n: nat, off: nat, p: seq<byte>)
    requires Healthy(sb, s) && n < sb.ninodes && off <= s.ino[n].size && Spliced(sb, s, t, n, off, p)
    ensures off + |p| <= t.ino[n].size == |Splice(ContentOf(sb, s, n), off, p)|
  {
    assert FileIs(sb, t, n, Splice(ContentOf(sb, s, n), off, p));
  }

  /** What filewrite has done after writing `part` at `off`: the bytes are in the file, and the
      blocks they lie in were allocated where there were none; nothing at all if the offset
      lies beyond the end of the file. */
  ghost predicate Delivered(sb: Super, s: State, t: State, n: nat, off: nat, part: seq<byte>)
    requires Healthy(sb, s) && n < sb.ninodes
  {
    if off <= s.ino[n].size
    then Spliced(sb, s, t, n, off, part) && RangeMap(sb, s, t, n, off / BSIZE, UpTo(off, off + |part|))
    else part == [] && t == s
  }

  lemma DeliveredNone(sb: Super, s: State, n: nat, off: nat)
    requires Healthy(sb, s) && n < sb.ninodes
    ensures Delivered(sb, s, s, n, off, [])
  {
    if off <= s.ino[n].size {
      SplicedNone(sb, s, n, off);
      HealthySize(sb, s, n);
      RangeNone(sb, s, n, off / BSIZE);
    }
  }

  lemma HealthySize(sb: Super, s: State, n: nat)
    requires Healthy(sb, s) && n < sb.ninodes
    ensures Shape(sb, s) && |s.ino| == sb.ninodes && s.ino[n].size <= MAXBYTES
  {
    assert InodeOk(sb, s, n);
  }

  lemma DeliveredSize(sb: Super, s: State, t: State, n: nat, off: nat, part: seq<byte>)
    requires Healthy(sb, s) && n < sb.ninodes && Delivered(sb, s, t, n, off, part)
    ensures |t.ino| == sb.ninodes
    ensures off + |part| <= t.ino[n].size <==> off <= s.ino[n].size
  {
    if off <= s.ino[n].size { SplicedSize(sb, s, t, n, off, part); }
  }

  lemma DeliveredStep(sb: Super, s: State, t: State, u: State, n: nat, off: nat, p: seq<byte>, q: seq<byte>)
    requires Healthy(sb, s) && n < sb.ninodes && Delivered(sb, s, t, n, off, p) && Healthy(sb, t)
    requires off + |p| <= t.ino[n].size && Spliced(sb, t, u, n, off + |p|, q)
    requires 0 < |q| && off + |p| + |q| <= MAXBYTES
    requires RangeMap(sb, t, u, n, (off + |p|) / BSIZE, UpTo(off + |p|, off + |p| + |q|))
    ensures Delivered(sb, s, u, n, off, p + q)
  {
    hide UpTo, RangeMap, Healthy, Spliced;
    DeliveredSize(sb, s, t, n, off, p);
    SplicedTrans(sb, s, t, u, n, off, p, q);
    var o := off + |p|;
    UpToSplit(off, o, o + |q|);
    RangeJoin(sb, s, t, u, n, off / BSIZE, UpTo(off, o), o / BSIZE, UpTo(off, o + |q|));
  }

  /** What is too much for the next chunk was too much for the write up to its end. */
  lemma DeliveredCost(sb: Super, s: State, t: State, n: nat, off: nat, p: seq<byte>, m: nat)
    requires Healthy(sb, s) && n < sb.ninodes && Delivered(sb, s, t, n, off, p) && off <= s.ino[n].size
    requires Shape(sb, t) && 0 < m && off + |p| + m <= MAXBYTES
    ensures |FreeSet(sb, t)| < Cost(sb, t, n, off + |p|, m) <==> |FreeSet(sb, s)| < Cost(sb, s, n, off, |p| + m)
  {
    hide Healthy, UpTo, RangeMap, Need, FreeSet, Spliced;
    var o := off + |p|;
    UpToSplit(off, o, o + m);
    NeedPast(sb, s, t, n, off / BSIZE, UpTo(off, o), o / BSIZE, UpTo(off, o + m));
  }

  lemma DeliveredPaid(sb: Super, s: State, t: State, n: nat, off: nat, p: seq<byte>)
    requires Healthy(sb, s) && n < sb.ninodes && Delivered(sb, s, t, n, off, p)
    requires off <= s.ino[n].size && off + |p| <= MAXBYTES
    ensures |FreeSet(sb, s)| >= Cost(sb, s, n, off, |p|)
  {
    hide Healthy, UpTo, RangeMap, Need, FreeSet, Spliced;
    RangePaid(sb, s, t, n, off / BSIZE, UpTo(off, off + |p|));
  }

  lemma CostGrows(sb: Super, s: State, n: nat, off: nat, k: nat, m: nat)
    requires Shape(sb, s) && n < sb.ninodes && k <= m && off + m <= MAXBYTES
    ensures Cost(sb, s, n, off, k) <= Cost(sb, s, n, off, m)
  {
    hide UpTo, Need, Shape;
    UpToMonotone(off, off + k, off + m);
    NeedGrows(sb, s, n, off / BSIZE, UpTo(off, off + k), UpTo(off, off + m));
  }

  /** The length of the chunk at position `i` of `n` bytes. */
  function Turn(i: nat, n: nat): (m: nat)
    requires i <= n
    ensures i + m <= n && m <= CHUNK && (i < n ==> 0 < m)
  {
    if n - i > CHUNK then CHUNK else n - i
  }

  /** One chunk, from state `s` and offset `off` to `t` and `off'`: refused, or written unless the
      disk has too few free blocks. */
  ghost predicate ChunkDone(sb: Super, s: State, t: State, n: nat, off: nat, off': nat, part: seq<byte>,
                            r: Outcome<int>)
    requires Healthy(sb, s) && n < sb.ninodes
  {
    if off <= s.ino[n].size && off + |part| <= MAXBYTES
    then WriteDone(sb, s, t, n, off, part, r) && (r.Ok? ==> off' == off + |part|)
    else r == Ok(-1) && off' == off && t == s
  }

  lemma ChunkHealthy(sb: Super, s: State, t: State, n: nat, off: nat, off': nat, part: seq<byte>, r: Outcome<int>)
    requires Healthy(sb, s) && n < sb.ninodes && ChunkDone(sb, s, t, n, off, off', part, r) && r.Ok?
    ensures Healthy(sb, t) && Shape(sb, t) && t.ino[n].typ == s.ino[n].typ
  {
    hide InodeOk, Cost, FreeSet, RangeMap, UpTo;
  }

  /** Whether a chunk of `m` bytes after `i` others passes writei's checks. */
  predicate Fits(size: nat, start: nat, i: nat, m: nat) { start <= size && start + i + m <= MAXBYTES }

  lemma ChunkCase(sb: Super, s: State, t: State, n: nat, start: nat, p: seq<byte>, m: nat)
    requires Healthy(sb, s) && n < sb.ninodes && Delivered(sb, s, t, n, start, p) && Healthy(sb, t)
    ensures Shape(sb, s) && Shape(sb, t)
    ensures Fits(s.ino[n].size, start, |p|, m) <==> Fits(t.ino[n].size, start + |p|, 0, m)
  {
    DeliveredSize(sb, s, t, n, start, p);
  }

  lemma ChunkFails(sb: Super, s: State, t: State, u: State, n: nat, start: nat, p: seq<byte>, q: seq<byte>, off': nat)
    requires Healthy(sb, s) && n < sb.ninodes && Delivered(sb, s, t, n, start, p) && Healthy(sb, t) && 0 < |q|
    requires ChunkDone(sb, t, u, n, start + |p|, off', q, Panic)
    ensures Shape(sb, s) && Fits(s.ino[n].size, start, |p|, |q|)
    ensures |FreeSet(sb, s)| < Cost(sb, s, n, start, |p| + |q|)
  {
    hide Healthy, Spliced, Delivered, Cost, FreeSet, RangeMap, UpTo, Shape;
    ChunkCase(sb, s, t, n, start, p, |q|);
    DeliveredCost(sb, s, t, n, start, p, |q|);
  }

  /** A chunk takes what was delivered further, or is refused. */
  lemma ChunkAdds(sb: Super, s: State, t: State, u: State, n: nat, start: nat, p: seq<byte>, q: seq<byte>,
                  off': nat, k: int)
    requires Healthy(sb, s) && n < sb.ninodes && Delivered(sb, s, t, n, start, p) && Healthy(sb, t) && 0 < |q|
    requires ChunkDone(sb, t, u, n, start + |p|, off', q, Ok(k))
    ensures
      if Fits(s.ino[n].size, start, |p|, |q|)
      then k == |q| && off' == start + |p| + |q| && Delivered(sb, s, u, n, start, p + q)
      else k == -1 && off' == start + |p| && u == t
  {
    hide Healthy, Spliced, Delivered, Cost, FreeSet, RangeMap, UpTo, Shape;
    ChunkCase(sb, s, t, n, start, p, |q|);
    if Fits(s.ino[n].size, start, |p|, |q|) {
      DeliveredStep(sb, s, t, u, n, start, p, q);
    }
  }

  /** The whole chunks in `room` bytes. */
  function Whole(room: nat): (k: nat)
    ensures k % CHUNK == 0 && k <= room < k + CHUNK
  {
    assert CHUNK == 1536;
    room - room % CHUNK
  }

  lemma WholeLargest(room: nat, i: nat)
    requires i % CHUNK == 0 && i <= room
    ensures i <= Whole(room) && (room < i + CHUNK ==> i == Whole(room))
    ensures (i + CHUNK) % CHUNK == 0 && (i + CHUNK <= room ==> i + CHUNK <= Whole(room))
  {
    assert CHUNK == 1536;
  }

  /** How many of `n` bytes filewrite leaves in a file of this size at `off`: all of them, or
      as many whole chunks as the largest file has room for. */
  function Kept(size: nat, off: nat, n: nat): (p: nat)
    requires size <= MAXBYTES
    ensures p <= n && (off <= size ==> off + p <= MAXBYTES)
    ensures p == n <==> n == 0 || (off <= size && off + n <= MAXBYTES)
  {
    if off > size then 0
    else if off + n <= MAXBYTES then n
    else Whole(MAXBYTES - off)
  }

  /** A failing write leaves something behind exactly when a whole chunk fits. */
  lemma PartLeft(size: nat, off: nat, n: nat)
    requires size <= MAXBYTES
    ensures 0 < Kept(size, off, n) < n <==> off <= size && off + CHUNK <= MAXBYTES < off + n
    ensures Kept(0, 0, MAXBYTES + 1) == 70656
  {
    assert CHUNK == 1536;
    assert Whole(71680) == 70656;
    hide Whole;
    if off <= size { WholeLargest(MAXBYTES - off, 0); }
  }

  /** The first `i` bytes are chunks that passed. */
  predicate KeptSoFar(size: nat, off: nat, i: nat, n: nat): (b: bool)
    requires size <= MAXBYTES && i <= n
    ensures (i == 0 ==> b) && (b && i == n ==> Kept(size, off, n) == n)
  {
    if i == n then i == Kept(size, off, n)
    else i % CHUNK == 0 && (i == 0 || (off <= size && off + i <= MAXBYTES))
  }

  /** The chunks up to `i` are kept. If the next one fits it is kept too, else no more are. */
  lemma KeptTurn(size: nat, off: nat, i: nat, n: nat)
    requires size <= MAXBYTES && i < n && KeptSoFar(size, off, i, n)
    ensures
      if Fits(size, off, i, Turn(i, n))
      then i + Turn(i, n) <= Kept(size, off, n) && KeptSoFar(size, off, i + Turn(i, n), n) && off <= size
      else i == Kept(size, off, n)
  {
    hide Whole;
    if off <= size { WholeLargest(MAXBYTES - off, i); }
  }

  predicate Bounded(counts: seq<nat>) { forall k :: 0 <= k < |counts| ==> counts[k] <= LogSpec.MAXOPBLOCKS }

  /** filewrite has written `src[..i]` at `start`. */
  ghost predicate Underway(sb: Super, s: State, t: State, n: nat, start: nat, src: seq<byte>, i: nat)
    requires Healthy(sb, s) && n < sb.ninodes
  {
    && i <= |src| && s.ino[n].size <= MAXBYTES
    && Delivered(sb, s, t, n, start, src[..i]) && KeptSoFar(s.ino[n].size, start, i, |src|)
  }

  lemma TurnStops(sb: Super, s: State, t: State, u: State, n: nat, start: nat, src: seq<byte>, i: nat, off': nat)
    requires Healthy(sb, s) && n < sb.ninodes && i < |src| && Underway(sb, s, t, n, start, src, i) && Healthy(sb, t)
    requires ChunkDone(sb, t, u, n, start + i, off', src[i..i + Turn(i, |src|)], Panic)
    ensures Shape(sb, s) && start <= s.ino[n].size
    ensures |FreeSet(sb, s)| < Cost(sb, s, n, start, Kept(s.ino[n].size, start, |src|))
  {
    hide Healthy, Delivered, Cost, FreeSet, ChunkDone, Turn, Shape, Kept, KeptSoFar;
    HealthySize(sb, s, n);
    var m := Turn(i, |src|);
    KeptTurn(s.ino[n].size, start, i, |src|);
    ChunkFails(sb, s, t, u, n, start, src[..i], src[i..i + m], off');
    CostGrows(sb, s, n, start, i + m, Kept(s.ino[n].size, start, |src|));
  }

  lemma TurnAdds(sb: Super, s: State, t: State, u: State, n: nat, start: nat, src: seq<byte>, i: nat, off': nat, k: int)
    requires Healthy(sb, s) && n < sb.ninodes && i < |src| && Underway(sb, s, t, n, start, src, i) && Healthy(sb, t)
    requires ChunkDone(sb, t, u, n, start + i, off', src[i..i + Turn(i, |src|)], Ok(k))
    ensures k >= 0 ==> 0 < k && off' == start + i + k && Underway(sb, s, u, n, start, src, i + k)
    ensures k < 0 ==> off' == start + i && i == Kept(s.ino[n].size, start, |src|) < |src|
    ensures k < 0 ==> Delivered(sb, s, u, n, start, src[..i])
  {
    hide Healthy, Delivered, Cost, FreeSet, ChunkDone, Turn, Shape, Kept, KeptSoFar;
    HealthySize(sb, s, n);
    var part := src[i..i + Turn(i, |src|)];
    assert src[..i] + part == src[..i + |part|];
    KeptTurn(s.ino[n].size, start, i, |src|);
    ChunkAdds(sb, s, t, u, n, start, src[..i], part, off', k);
  }

  /** struct file for an inode. */
  class OpenFile {
    const fs: FileSystem
    const inum: nat
    const readable: bool
    const writable: bool
    var off: uint32

    constructor (fs: FileSystem, inum: nat, readable: bool, writable: bool)
      ensures this.fs == fs && this.inum == inum && this.readable == readable && this.writable == writable && off == 0
    {
      this.fs, this.inum, this.readable, this.writable, this.off := fs, inum, readable, writable, 0;
    }

    ghost predicate Valid()
      reads this, fs
    {
      Healthy(fs.sb, fs.St()) && inum < fs.sb.ninodes && fs.ino[inum].typ != T_DEV
    }

    /** One turn of filewrite's loop: a transaction of its own, which logs at most
        MAXOPBLOCKS blocks. */
    method WriteChunk(part: seq<byte>) returns (r: Outcome<int>, ghost count: nat)
      requires Valid() && 0 < |part| <= CHUNK
      modifies this`off, fs
      ensures fs.base == old(fs.blk) && fs.Tracked()
      ensures ChunkDone(fs.sb, old(fs.St()), fs.St(), inum, old(off), off, part, r)
      ensures r.Panic? ==> Shape(fs.sb, fs.St()) && fs.AllMarked(fs.St())
      ensures r.Ok? ==> Valid() && |fs.logged| == count <= LogSpec.MAXOPBLOCKS
      ensures r.Ok? ==> HasRoom(LogSpec.MAXOPBLOCKS, [], fs.journal)
    {
      hide Healthy, Spliced, Cost, FreeSet, RangeMap, UpTo, Refused, LogBound, Shape, Tracks, HasRoom;
      HealthySize(fs.sb, fs.St(), inum);
      ghost var s, off0 := fs.St(), off;
      fs.Begin();
      assert fs.journal == fs.journal[..0];
      NoAccess(fs.blk, [], fs.journal, LogSpec.MAXOPBLOCKS);
      RefusedMeans(fs.ino[inum].size, off, |part|);
      ChunkFits(off, |part|);
      ghost var touched := {};
      r, touched := fs.Writei(inum, part, off, seq(NDEV, i => Option.None));
      count := 0;
      if r.Ok? && r.value > 0 {
        off := off + r.value;
      }
      if r.Ok? {
        ChunkHealthy(fs.sb, s, fs.St(), inum, off0, off, part, r);
        SubsetCount(fs.logged, touched);
        if !Refused(s.ino[inum].size, off0, |part|) {
          MoreRoom(LogBound(off0, off0 + |part|), LogSpec.MAXOPBLOCKS, [], fs.journal);
        }
        count := |fs.logged|;
      }
    }

    /** One turn of filewrite's loop at `src[i..]`, relative to the state and offset before it. */
    method WriteTurn(src: seq<byte>, i: nat, ghost s: State, ghost start: nat)
      returns (r: Outcome<int>, i': nat, ghost count: nat)
      requires Valid() && i < |src| && off as int == start + i
      requires Healthy(fs.sb, s) && Underway(fs.sb, s, fs.St(), inum, start, src, i)
      modifies this`off, fs
      ensures s.ino[inum].size <= MAXBYTES
      ensures r.Panic? ==> Shape(fs.sb, fs.St()) && fs.AllMarked(fs.St())
      ensures r.Panic? ==> Shape(fs.sb, s) && start <= s.ino[inum].size
      ensures r.Panic? ==> |FreeSet(fs.sb, s)| < Cost(fs.sb, s, inum, start, Kept(s.ino[inum].size, start, |src|))
      ensures r.Ok? ==> Valid() && count <= LogSpec.MAXOPBLOCKS && i' <= |src| && off as int == start + i'
      ensures r.Ok? && r.value >= 0 ==> i < i' && Underway(fs.sb, s, fs.St(), inum, start, src, i')
      ensures r.Ok? && r.value < 0 ==>
        i' == Kept(s.ino[inum].size, start, |src|) < |src| && Delivered(fs.sb, s, fs.St(), inum, start, src[..i'])
    {
      hide Healthy, Delivered, Cost, FreeSet, ChunkDone, Turn, Shape, Kept, KeptSoFar;
      ghost var t := fs.St();
      r, count := WriteChunk(src[i..i + Turn(i, |src|)]);
      i' := i;
      if r.Panic? {
        TurnStops(fs.sb, s, t, fs.St(), inum, start, src, i, off);
      } else {
        TurnAdds(fs.sb, s, t, fs.St(), inum, start, src, i, off, r.value);
        if r.value >= 0 {
          i' := i + r.value;
        }
      }
    }

    /** The loop of filewrite; `p` bytes are to be kept. */
    method WriteLoop(src: seq<byte>, ghost s: State, ghost start: nat, ghost p: nat)
      returns (r: Outcome<int>, ghost counts: seq<nat>)
      requires Valid() && s == fs.St() && start == off as nat
      requires s.ino[inum].size <= MAXBYTES && p == Kept(s.ino[inum].size, start, |src|)
      modifies this`off, fs
      ensures r.Panic? ==> Shape(fs.sb, fs.St()) && fs.AllMarked(fs.St())
      ensures r.Panic? ==> start <= s.ino[inum].size && |FreeSet(fs.sb, s)| < Cost(fs.sb, s, inum, start, p)
      ensures r.Ok? ==> Valid() && Bounded(counts) && off as int == start + p
      ensures r.Ok? ==> r.value == (if p == |src| then |src| else -1)
      ensures r.Ok? ==> Delivered(fs.sb, s, fs.St(), inum, start, src[..p])
    {
      hide Healthy, Delivered, Kept, KeptSoFar, Cost, FreeSet, Shape;
      counts := [];
      DeliveredNone(fs.sb, s, inum, start);
      assert src[..0] == [];
      var i := 0;
      while i < |src|
        invariant 0 <= i <= |src| && Valid() && off as int == start + i
        invariant Underway(fs.sb, s, fs.St(), inum, start, src, i) && Bounded(counts)
      {
        ghost var count;
        r, i, count := WriteTurn(src, i, s, start);
        counts := counts + [count];
        if r.Panic? {
          return;
        }
        if r.value < 0 {
          return Ok(-1), counts;
        }
      }
      r := Ok(|src|);
    }

    /** filewrite: the bytes go into the file chunk by chunk, each chunk in a transaction that
        fits its reservation. All of them arrive exactly when the write starts inside the
        file and ends inside the largest file size; otherwise the whole chunks that did fit
        stay written, and the result is -1. The disk runs full exactly when it has fewer
        free blocks than those bytes need. */
    method Filewrite(src: seq<byte>) returns (r: Outcome<int>, ghost p: nat, ghost counts: seq<nat>)
      requires Valid()
      modifies this`off, fs
      ensures r.Ok? ==> Bounded(counts)
      ensures !writable ==> r == Ok(-1) && off == old(off) && fs.St() == old(fs.St())
      ensures writable && r.Panic? ==> Shape(fs.sb, fs.St()) && fs.AllMarked(fs.St())
      ensures old(fs.ino[inum]).size <= MAXBYTES && p == Kept(old(fs.ino[inum]).size, old(off), |src|)
      ensures writable && old(off) > old(fs.ino[inum]).size ==> r.Ok?
      ensures writable && old(off) <= old(fs.ino[inum]).size ==>
        (r.Panic? <==> |FreeSet(fs.sb, old(fs.St()))| < Cost(fs.sb, old(fs.St()), inum, old(off), p))
      ensures writable && r.Ok? ==>
        && r.value == (if p == |src| then |src| else -1)
        && Valid() && off as int == old(off) + p
        && Delivered(fs.sb, old(fs.St()), fs.St(), inum, old(off), src[..p])
    {
      hide Healthy, Delivered, Kept, Cost, FreeSet, Shape;
      HealthySize(fs.sb, fs.St(), inum);
      ghost var s, start := fs.St(), off as nat;
      counts, p := [], Kept(fs.ino[inum].size, start, |src|);
      if !writable {
        return Ok(-1), p, counts;
      }
      r, counts := WriteLoop(src, s, start, p);
      if r.Ok? && start <= s.ino[inum].size {
        DeliveredPaid(fs.sb, s, fs.St(), inum, start, src[..p]);
      }
    }

    /** fileread: the bytes at the offset, which advances by as many. */
    method Fileread(n: uint32) returns (r: int, dst: seq<byte>)
      requires Valid()
      modifies this`off, fs
      ensures Valid() && fs.St() == old(fs.St()) && fs.logged == old(fs.logged)
      ensures !readable ==> r == -1 && off == old(off)
      ensures readable && (old(off) > fs.ino[inum].size || old(off) + n >= 0x1_0000_0000) ==> r == -1 && off == old(off)
      ensures readable && old(off) <= fs.ino[inum].size && old(off) + n < 0x1_0000_0000 ==>
        && off as int == old(off) + |dst| && r == |dst| <= n && off <= fs.ino[inum].size
        && dst == ContentOf(fs.sb, fs.St(), inum)[old(off)..off]
        && (|dst| < n ==> off == fs.ino[inum].size)
    {
      if !readable {
        return -1, [];
      }
      r, dst := fs.Readi(inum, off, n, seq(NDEV, i => Option.None));
      if r > 0 {
        off := off + r;
      }
    }
  }
}
