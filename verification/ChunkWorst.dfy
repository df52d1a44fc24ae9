/** A disk on which one chunk of filewrite logs as many blocks as an operation may. The four blocks
    that the chunk allocates are the only free ones, each in a bitmap block of its own. */
module ChunkWorst {
  import opened Blocks
  import opened Collections
  import opened FsLayout
  import opened FsState
  import opened FsFile
  import opened FsCount
  import opened FsTrunc
  import opened Bio
  import opened Fs
  import opened File

  const START: nat := 267        // the first data block
  const PER: nat := 455          // files of nine blocks in the reach of one bitmap block
  const SB: Super := Super(16384, 16117, 1820, 32, 260)

  /** The owned blocks: all data blocks but the last one of each bitmap block's reach. */
  predicate Taken(b: int) { START <= b < 16384 && b % BPB != BPB - 1 }

  /** File 0 has the first twelve data blocks; each other file that has any has nine in a row. */
  function OwnerAt(b: nat): Ref {
    if b < START + NDIRECT then Direct(0, if START <= b then b - START else 0)
    else Direct(PER * (b / BPB) + b % BPB / 9, b % BPB % 9)
  }

  function AddrAt(n: nat, i: nat): nat {
    if n == 0 then (if i < NDIRECT then START + i else 0)
    else if n < 31 || n >= 1820 || i >= 9 then 0
    else BPB * (n / PER) + 9 * (n % PER) + i
  }

  /** File 0 ends one byte into its last direct block. */
  function SizeAt(n: nat): nat { if n == 0 then 11 * BSIZE + 1 else if n < 31 then 0 else 9 * BSIZE }

  function InodeAt(n: nat): (ip: Inode)
    ensures ip.Ok()
  {
    Inode(2, 0, 0, 1, SizeAt(n), seq(NDIRECT + 1, i requires i >= 0 => AddrWord(n, i)))
  }

  function AddrWord(n: nat, i: nat): uint32 {
    AddrBound(n, i);
    AddrAt(n, i)
  }

  lemma AddrBound(n: nat, i: nat)
    ensures AddrAt(n, i) < 0x1_0000_0000
  {
    if 31 <= n < 1820 { assert n / PER < 4; }
  }

  /** Addresses and owners agree. */
  lemma OwnerOfAddr(n: nat, i: nat)
    requires n < SB.ninodes && i <= NDIRECT && AddrAt(n, i) != 0
    ensures Taken(AddrAt(n, i)) && OwnerAt(AddrAt(n, i)) == Direct(n, i)
  {
    if n > 0 {
      var q, r := n / PER, 9 * (n % PER) + i;
      assert q < 4 && r < BPB - 1;
      assert AddrAt(n, i) / BPB == q && AddrAt(n, i) % BPB == r;
      assert r / 9 == n % PER && r % 9 == i;
    }
  }

  lemma AddrOfOwner(b: nat)
    requires Taken(b)
    ensures Names(SB, OwnerAt(b)) && AddrAt(OwnerAt(b).inum, OwnerAt(b).i) == b
  {
    if b >= START + NDIRECT {
      var q, r := b / BPB, b % BPB;
      var n := PER * q + r / 9;
      assert q < 4 && r / 9 < PER;
      assert n / PER == q && n % PER == r / 9;
    }
  }

  // ---- The blocks

  /** A bitmap block with the first `k` bits set. */
  function Bits(k: nat): (b: Block)
    requires k <= BPB
    ensures forall j :: 0 <= j < BPB ==> (BitIn(b, j) <==> j < k)
  {
    if k == 0 then NoBits(); ZeroBlock else SetBitIn(Bits(k - 1), k - 1)
  }

  lemma NoBits()
    ensures forall j :: 0 <= j < BPB ==> !BitIn(ZeroBlock, j)
  {
    forall j | 0 <= j < BPB ensures !BitIn(ZeroBlock, j) { ZeroBits(j % 8); }
  }

  /** An inode block with its first `k` slots filled. */
  function Slots(x: nat, k: nat): (b: Block)
    requires k <= IPB
    ensures forall m :: 0 <= m < k ==> Slot(b, m) == Encode(InodeAt(IPB * x + m))
  {
    if k == 0 then ZeroBlock else PutSlot(Slots(x, k - 1), k - 1, Encode(InodeAt(IPB * x + k - 1)))
  }

  function BlockNo(x: nat): Block {
    if SB.inodestart <= x < SB.bmapstart then Slots(x - SB.inodestart, IPB)
    else if SB.bmapstart <= x < SB.bmapstart + 4 then Bits(BPB - 1)
    else ZeroBlock
  }

  ghost function Full(): (s: State)
    ensures |s.blk| == 16384 && |s.ino| == 1820
    ensures forall x :: 0 <= x < 16384 ==> s.blk[x] == BlockNo(x)
    ensures forall n :: 0 <= n < 1820 ==> s.ino[n] == InodeAt(n)
    ensures forall b :: b in s.owner <==> Taken(b)
    ensures forall b :: b in s.owner ==> s.owner[b] == OwnerAt(b)
  {
    State(seq(16384, x requires x >= 0 => BlockNo(x)), seq(1820, n requires n >= 0 => InodeAt(n)),
          map b: nat | b < 16384 && Taken(b) :: OwnerAt(b))
  }

  lemma FullAddrs(r: Ref)
    requires Names(SB, r)
    ensures Shape(SB, Full()) && AddrOf(SB, Full(), r) == if r.Direct? then AddrAt(r.inum, r.i) else 0
  {
    hide BlockNo, OwnerAt, Taken;
    var s := Full();
    assert s.ino[r.inum] == InodeAt(r.inum);
    assert InodeAt(r.inum).addrs[NDIRECT] == AddrWord(r.inum, NDIRECT);
  }

  lemma FullOwned()
    ensures Owned(SB, Full()) && AllOwned(Full())
  {
    var s := Full();
    FullAddrs(Direct(0, 0));
    forall r | Names(SB, r) ensures RefOk(SB, s, r) {
      FullAddrs(r);
      if r.Direct? && AddrAt(r.inum, r.i) != 0 { OwnerOfAddr(r.inum, r.i); }
    }
    forall b | b in s.owner ensures BlockOk(SB, s, b) {
      AddrOfOwner(b);
      FullAddrs(OwnerAt(b));
    }
    forall b: nat | b < SB.size ensures BitOk(SB, s, b) {
      assert s.blk[SB.BBlock(b)] == BlockNo(SB.BBlock(b));
    }
  }

  lemma FullInode(n: nat)
    requires n < SB.ninodes && Shape(SB, Full())
    ensures InodeOk(SB, Full(), n)
  {
    var s := Full();
    assert s.blk[SB.IBlock(n)] == BlockNo(SB.IBlock(n)) && s.ino[n] == InodeAt(n);
    assert IPB * (n / IPB) + n % IPB == n;
    forall bn: nat | bn * BSIZE < s.ino[n].size ensures BnMapped(SB, s, n, bn) {
      FullAddrs(Direct(n, bn));
    }
  }

  lemma FullHealthy()
    ensures Healthy(SB, Full()) && Full().ino[0] == InodeAt(0)
  {
    FullOwned();
    forall n: nat | n < SB.ninodes ensures InodeOk(SB, Full(), n) { FullInode(n); }
  }

  // ---- The chunk

  const OFF: nat := 5633         // 11 * BSIZE + 1

  function Ones(): (p: seq<byte>)
    ensures |p| == CHUNK && forall i :: 0 <= i < CHUNK ==> p[i] == 1
  {
    seq(CHUNK, i => 1)
  }

  /** The free blocks, one in the reach of each bitmap block. */
  function Gap(k: nat): nat { BPB * k + BPB - 1 }

  lemma FullFree()
    ensures FreeSet(SB, Full()) == {Gap(0), Gap(1), Gap(2), Gap(3)} && |FreeSet(SB, Full())| == 4
  {
    var s, g := Full(), {Gap(0), Gap(1), Gap(2), Gap(3)};
    forall b: nat ensures b in FreeSet(SB, s) <==> b in g {
      if b < SB.size { assert b == BPB * (b / BPB) + b % BPB && b / BPB < 4; }
    }
  }

  lemma FullCost()
    ensures Shape(SB, Full()) && Cost(SB, Full(), 0, OFF, CHUNK) == 4 && UpTo(OFF, OFF + CHUNK) == 15
  {
    FullAddrs(BRef(0, 11));
    FullAddrs(BRef(0, 12));
    FullAddrs(BRef(0, 13));
    FullAddrs(BRef(0, 14));
    FullAddrs(Direct(0, NDIRECT));
    assert OFF / BSIZE == 11 && CHUNK == 1536;
    assert Holes(SB, Full(), 0, 11, 12) == 0;
    assert Holes(SB, Full(), 0, 11, 14) == 2;
  }

  /** The block map of `u` differs from that of the full disk at `b`. */
  predicate Changed(u: State, b: nat) { b < |u.blk| && u.blk[b] != BlockNo(b) }

  /** What filewrite's contract says of the state after the chunk. */
  ghost predicate AfterChunk(u: State) {
    && Healthy(SB, Full()) && Full().ino[0].size == OFF && |u.blk| == 16384
    && Spliced(SB, Full(), u, 0, OFF, Ones()) && RangeMap(SB, Full(), u, 0, 11, 15)
  }

  lemma AfterHealthy(u: State)
    requires AfterChunk(u)
    ensures Healthy(SB, u) && Owned(SB, u) && Shape(SB, u)
  {
    hide InodeOk, RefOk, BlockOk, BitOk, RangeMap;
  }

  /** Every owned block is held by a place that names it. */
  lemma Held(u: State, b: nat)
    requires AfterChunk(u) && b in u.owner
    ensures Shape(SB, u) && Names(SB, u.owner[b]) && AddrOf(SB, u, u.owner[b]) == b
  {
    hide InodeOk, RefOk, BitOk, RangeMap, Full;
    assert BlockOk(SB, u, b);
  }

  /** No block changes hands, and the places outside the chunk's reach stay as they are. */
  lemma OwnersStay(u: State, b: nat)
    requires AfterChunk(u) && Taken(b)
    ensures b in u.owner && u.owner[b] == OwnerAt(b)
  {
    hide Healthy, Spliced, Need, FreeSet, OwnerAt, Taken;
    assert b in Full().owner && Full().owner[b] == OwnerAt(b);
  }

  lemma OutsideStays(u: State, r: Ref)
    requires AfterChunk(u) && Names(SB, r) && !InRange(r, 0, 11, 15)
    ensures Shape(SB, Full()) && Shape(SB, u) && AddrOf(SB, u, r) == AddrOf(SB, Full(), r)
  {
    hide Healthy, Spliced, Need, FreeSet, Full;
    assert Stays(SB, Full(), u, r);
  }

  lemma NothingFree(u: State)
    requires AfterChunk(u)
    ensures FreeSet(SB, u) == {}
  {
    FullFree();
    FullCost();
    hide Healthy, Spliced, Full, FreeSet;
    assert |FreeSet(SB, u)| + Need(SB, Full(), 0, 11, 15) == 4;
  }

  /** All four free blocks are taken. */
  lemma GapTaken(u: State, k: nat)
    requires AfterChunk(u) && k < 4
    ensures Gap(k) in u.owner
  {
    hide AfterChunk;
    NothingFree(u);
    assert Gap(k) !in FreeSet(SB, u);
    assert SB.IsData(Gap(k));
  }

  /** The block that was mapped stays where it was. */
  lemma LastStays(u: State)
    requires AfterChunk(u)
    ensures Shape(SB, u) && AddrOf(SB, u, Direct(0, 11)) == START + 11
  {
    hide AfterChunk;
    OwnersStay(u, START + 11);
    Held(u, START + 11);
  }

  lemma NoGapBefore(r: Ref, k: nat)
    requires Names(SB, r) && k < 4
    ensures Shape(SB, Full()) && AddrOf(SB, Full(), r) != Gap(k)
  {
    hide Full, AddrAt, OwnerAt, AddrOf, Shape;
    FullAddrs(r);
    if r.Direct? && AddrAt(r.inum, r.i) != 0 { OwnerOfAddr(r.inum, r.i); }
  }

  /** They hold the three new data blocks and the indirect block. */
  lemma GapRef(u: State, k: nat) returns (r: Ref)
    requires AfterChunk(u) && k < 4
    ensures Shape(SB, u) && Names(SB, r) && AddrOf(SB, u, r) == Gap(k)
    ensures r == Direct(0, NDIRECT) || (r.Entry? && r.inum == 0 && r.j < 3)
  {
    hide AfterChunk, Full, Shape, AddrOf;
    GapTaken(u, k);
    r := u.owner[Gap(k)];
    Held(u, Gap(k));
    LastStays(u);
    if !InRange(r, 0, 11, 15) {
      OutsideStays(u, r);
      NoGapBefore(r, k);
    }
  }

  /** The bytes of the chunk are in their blocks. */
  lemma ByteThere(u: State, i: nat)
    requires AfterChunk(u) && OFF <= i < OFF + CHUNK
    ensures Shape(SB, u) && FileBlock(SB, u, 0, i / BSIZE)[i % BSIZE] == 1
  {
    hide Healthy, RangeMap, Full, FileOk;
    AfterHealthy(u);
    HealthyFile(SB, u, 0);
    assert FileIs(SB, u, 0, Splice(ContentOf(SB, Full(), 0), OFF, Ones()));
    assert ContentOf(SB, u, 0)[i] == Ones()[i - OFF];
    BytesAt(SB, u, 0, u.ino[0].size, i);
  }

  lemma DataChanged(u: State, bn: nat)
    requires AfterChunk(u) && 11 <= bn < 15
    ensures Shape(SB, u) && AddrOf(SB, u, BRef(0, bn)) < |u.blk| && u.blk[AddrOf(SB, u, BRef(0, bn))] != ZeroBlock
  {
    hide AfterChunk, Owned, Healthy, AddrOf;
    AfterHealthy(u);
    var i := if bn == 11 then OFF else bn * BSIZE;
    ByteThere(u, i);
    assert i / BSIZE == bn;
  }

  lemma EntryThere(u: State)
    requires AfterChunk(u)
    ensures Shape(SB, u) && AddrOf(SB, u, Entry(0, 0)) != 0
  {
    hide Healthy, Spliced, Full;
    assert AddrOf(SB, u, BRef(0, 12)) != 0;
  }

  lemma AfterLength(u: State)
    requires AfterChunk(u)
    ensures |u.blk| == 16384
  {
  }

  lemma GapChanged(u: State, k: nat)
    requires AfterChunk(u) && k < 4
    ensures Changed(u, Gap(k))
  {
    hide AfterChunk, Word;
    var r := GapRef(u, k);
    if r.Entry? {
      DataChanged(u, r.j + NDIRECT);
      assert BRef(0, r.j + NDIRECT) == r;
    } else {
      EntryThere(u);
      AfterLength(u);
      ZeroWord(0);
    }
  }

  lemma LastChanged(u: State)
    requires AfterChunk(u)
    ensures Changed(u, START + 11)
  {
    hide AfterChunk;
    LastStays(u);
    DataChanged(u, 11);
  }

  lemma MapChanged(u: State, k: nat)
    requires AfterChunk(u) && k < 4
    ensures Changed(u, SB.bmapstart + k)
  {
    hide AfterChunk, Healthy, RefOk, BlockOk;
    AfterHealthy(u);
    AfterLength(u);
    GapTaken(u, k);
    assert BitOk(SB, u, Gap(k));
    assert SB.BBlock(Gap(k)) == SB.bmapstart + k && Gap(k) % BPB == BPB - 1;
  }

  lemma AfterSize(u: State)
    requires AfterChunk(u)
    ensures Shape(SB, u) && u.ino[0].size == OFF + CHUNK
  {
    hide Healthy, RangeMap, Full;
    AfterHealthy(u);
    assert FileIs(SB, u, 0, Splice(ContentOf(SB, Full(), 0), OFF, Ones()));
  }

  lemma AfterSlot(u: State)
    requires AfterChunk(u)
    ensures Shape(SB, u) && Slot(u.blk[SB.inodestart], 0) == Encode(u.ino[0])
  {
    hide AfterChunk, Owned, FileOk, Slot;
    AfterHealthy(u);
    assert InodeOk(SB, u, 0);
  }

  lemma SizeWord(ip: Inode)
    requires ip.Ok()
    ensures Encode(ip)[2] == ip.size
  {
  }

  lemma InodeChanged(u: State)
    requires AfterChunk(u)
    ensures Changed(u, SB.inodestart)
  {
    hide AfterChunk, Slot, Encode, Slots;
    AfterLength(u);
    AfterSize(u);
    AfterSlot(u);
    SizeWord(u.ino[0]);
    SizeWord(InodeAt(0));
    assert IPB * 0 + 0 == 0;
    assert Slot(BlockNo(SB.inodestart), 0) == Encode(InodeAt(0));
  }

  /** Whoever logs all blocks that the chunk changes logs ten. */
  lemma TenChanged(u: State, lg: set<nat>)
    requires AfterChunk(u) && forall b: nat :: Changed(u, b) ==> b in lg
    ensures |lg| >= LogSpec.MAXOPBLOCKS
  {
    hide AfterChunk, Changed;
    InodeChanged(u);
    LastChanged(u);
    forall k: nat | k < 4 ensures Gap(k) in lg { GapChanged(u, k); }
    MapChanged(u, 0);
    MapChanged(u, 1);
    MapChanged(u, 2);
    MapChanged(u, 3);
    var ten: set<nat> := {32, 278, 260, 261, 262, 263, 4095, 8191, 12287, 16383};
    assert Gap(0) in lg && Gap(1) in lg && Gap(2) in lg && Gap(3) in lg;
    assert |ten| == 10;
    SubsetCount(ten, lg);
  }

  /** A chunk in the middle of filewrite that logs exactly as many blocks as its reservation. */
  method WorstChunk() returns (fs: FileSystem, off: uint32, r: Bio.Outcome<int>)
    ensures Healthy(SB, Full()) && fs.sb == SB && fs.base == Full().blk && fs.Tracked()
    ensures ChunkDone(SB, Full(), fs.St(), 0, OFF, off, Ones(), r)
    ensures r == Ok(CHUNK) && |fs.logged| == LogSpec.MAXOPBLOCKS
  {
    hide Healthy, Spliced, RangeMap, Cost, FreeSet, UpTo, BlockNo;
    FullHealthy();
    FullFree();
    FullCost();
    fs := new FileSystem(SB, seq(16384, x requires x >= 0 => BlockNo(x)),
                         seq(1820, n requires n >= 0 => InodeAt(n)), Full().owner);
    assert fs.St() == Full();
    var f := new OpenFile(fs, 0, true, true);
    f.off := OFF;
    ghost var count;
    r, count := f.WriteChunk(Ones());
    off := f.off;
    TenChanged(fs.St(), fs.logged);
  }
}
