/** What the file system keeps where: bits of the free map, words of inodes, the disk layout. */
module FsLayout {
  import opened Blocks

  // ---- Bits

  predicate Bit(x: nat, k: nat) {
    if k == 0 then x % 2 == 1 else Bit(x / 2, k - 1)
  }

  /** x | (1 << k) */
  function OrBit(x: nat, k: nat): nat {
    if k == 0 then (if x % 2 == 1 then x else x + 1) else 2 * OrBit(x / 2, k - 1) + x % 2
  }

  /** x & ~(1 << k) */
  function ClearBit(x: nat, k: nat): nat {
    if k == 0 then (if x % 2 == 1 then x - 1 else x) else 2 * ClearBit(x / 2, k - 1) + x % 2
  }

  function Pow2(k: nat): nat {
    if k == 0 then 1 else 2 * Pow2(k - 1)
  }

  lemma {:induction false} ZeroBits(k: nat)
    ensures !Bit(0, k)
  {
    if k > 0 { ZeroBits(k - 1); }
  }

  lemma {:induction false} OrBitBits(x: nat, k: nat, j: nat)
    ensures Bit(OrBit(x, k), j) <==> j == k || Bit(x, j)
  {
    if k > 0 && j > 0 {
      assert OrBit(x, k) / 2 == OrBit(x / 2, k - 1);
      OrBitBits(x / 2, k - 1, j - 1);
    } else if j > 0 {
      assert OrBit(x, 0) / 2 == x / 2;
    }
  }

  lemma {:induction false} ClearBitBits(x: nat, k: nat, j: nat)
    ensures Bit(ClearBit(x, k), j) <==> j != k && Bit(x, j)
  {
    if k > 0 && j > 0 {
      assert ClearBit(x, k) / 2 == ClearBit(x / 2, k - 1);
      ClearBitBits(x / 2, k - 1, j - 1);
    } else if j > 0 {
      assert ClearBit(x, 0) / 2 == x / 2;
    }
  }

  lemma {:induction false} BitsInRange(x: nat, k: nat, m: nat)
    requires k < m && x < Pow2(m)
    ensures OrBit(x, k) < Pow2(m) && ClearBit(x, k) < Pow2(m)
  {
    var p, y := Pow2(m - 1), x / 2;
    assert Pow2(m) == 2 * p && x == 2 * y + x % 2 && y < p;
    if k > 0 { BitsInRange(y, k - 1, m - 1); }
  }

  lemma BitsInByte(x: byte, k: nat)
    requires k < 8
    ensures OrBit(x, k) < 0x100 && ClearBit(x, k) < 0x100
  {
    assert Pow2(8) == 0x100;
    BitsInRange(x, k, 8);
  }

  const BPB: nat := 4096

  /** Bit `i` of a bitmap block: `data[i/8] & (1 << (i%8))`. */
  predicate BitIn(b: Block, i: nat)
    requires i < BPB
  {
    Bit(b[i / 8], i % 8)
  }

  function SetBitIn(b: Block, i: nat): (r: Block)
    requires i < BPB
    ensures forall j :: 0 <= j < BPB ==> (BitIn(r, j) <==> j == i || BitIn(b, j))
  {
    SetBitInBits(b, i);
    b[i / 8 := OrBit(b[i / 8], i % 8)]
  }

  function ClearBitIn(b: Block, i: nat): (r: Block)
    requires i < BPB
    ensures forall j :: 0 <= j < BPB ==> (BitIn(r, j) <==> j != i && BitIn(b, j))
  {
    ClearBitInBits(b, i);
    b[i / 8 := ClearBit(b[i / 8], i % 8)]
  }

  lemma SetBitInBits(b: Block, i: nat)
    requires i < BPB
    ensures OrBit(b[i / 8], i % 8) < 0x100
    ensures
      var r: Block := b[i / 8 := OrBit(b[i / 8], i % 8)];
      forall j :: 0 <= j < BPB ==> (BitIn(r, j) <==> j == i || BitIn(b, j))
  {
    BitsInByte(b[i / 8], i % 8);
    var r: Block := b[i / 8 := OrBit(b[i / 8], i % 8)];
    forall j | 0 <= j < BPB ensures BitIn(r, j) <==> j == i || BitIn(b, j) {
      OrBitBits(b[i / 8], i % 8, j % 8);
    }
  }

  lemma ClearBitInBits(b: Block, i: nat)
    requires i < BPB
    ensures ClearBit(b[i / 8], i % 8) < 0x100
    ensures
      var r: Block := b[i / 8 := ClearBit(b[i / 8], i % 8)];
      forall j :: 0 <= j < BPB ==> (BitIn(r, j) <==> j != i && BitIn(b, j))
  {
    BitsInByte(b[i / 8], i % 8);
    var r: Block := b[i / 8 := ClearBit(b[i / 8], i % 8)];
    forall j | 0 <= j < BPB ensures BitIn(r, j) <==> j != i && BitIn(b, j) {
      ClearBitBits(b[i / 8], i % 8, j % 8);
    }
  }

  // ---- Inodes

  const NDIRECT: nat := 12
  const NINDIRECT: nat := 128
  const MAXFILE: nat := 140
  const IPB: nat := 8
  const DWORDS: nat := 16      // words in a struct dinode

  type uint16 = x: int | 0 <= x < 0x1_0000

  /** The fields that an inode has both in memory and on disk; addrs[NDIRECT] is the
      indirect block. */
  datatype Inode = Inode(typ: uint16, major: uint16, minor: uint16, nlink: uint16,
                         size: uint32, addrs: seq<uint32>)
  {
    predicate Ok() { |addrs| == NDIRECT + 1 }
  }

  /** struct dinode as sixteen words. */
  function Encode(ip: Inode): (w: seq<uint32>)
    requires ip.Ok()
    ensures |w| == DWORDS
  {
    [ip.typ + 0x1_0000 * ip.major, ip.minor + 0x1_0000 * ip.nlink, ip.size] + ip.addrs
  }

  /** What ilock reads back. */
  function Decode(w: seq<uint32>): (ip: Inode)
    requires |w| == DWORDS
    ensures ip.Ok()
  {
    Inode(w[0] % 0x1_0000, w[0] / 0x1_0000, w[1] % 0x1_0000, w[1] / 0x1_0000, w[2], w[3..])
  }

  lemma DecodeEncode(ip: Inode)
    requires ip.Ok()
    ensures Decode(Encode(ip)) == ip
  {
    var w := Encode(ip);
    assert w[3..] == ip.addrs;
  }

  function GetWords(b: Block, at: nat, n: nat): (w: seq<uint32>)
    requires at + n <= NWORDS
    ensures |w| == n
  {
    if n == 0 then [] else GetWords(b, at, n - 1) + [Word(b, at + n - 1)]
  }

  function PutWords(b: Block, at: nat, w: seq<uint32>, n: nat): (r: Block)
    requires n <= |w| && at + |w| <= NWORDS
  {
    if n == 0 then b else SetWord(PutWords(b, at, w, n - 1), at + n - 1, w[n - 1])
  }

  lemma {:induction false} SameWords(b: Block, c: Block, at: nat, n: nat)
    requires at + n <= NWORDS
    requires forall i :: at <= i < at + n ==> Word(b, i) == Word(c, i)
    ensures GetWords(b, at, n) == GetWords(c, at, n)
  {
    if n > 0 { SameWords(b, c, at, n - 1); }
  }

  lemma {:induction false} PutWordsOutside(b: Block, at: nat, w: seq<uint32>, n: nat, i: nat)
    requires n <= |w| && at + |w| <= NWORDS && i < NWORDS && !(at <= i < at + n)
    ensures Word(PutWords(b, at, w, n), i) == Word(b, i)
  {
    if n > 0 { PutWordsOutside(b, at, w, n - 1, i); }
  }

  lemma {:induction false} PutGetWords(b: Block, at: nat, w: seq<uint32>, n: nat)
    requires n <= |w| && at + |w| <= NWORDS
    ensures GetWords(PutWords(b, at, w, n), at, n) == w[..n]
  {
    if n > 0 {
      PutGetWords(b, at, w, n - 1);
      SameWords(PutWords(b, at, w, n - 1), PutWords(b, at, w, n), at, n - 1);
    }
  }

  /** The words of inode slot `k` of an inode block. */
  function Slot(b: Block, k: nat): (w: seq<uint32>)
    requires k < IPB
    ensures |w| == DWORDS
  {
    GetWords(b, DWORDS * k, DWORDS)
  }

  /** iupdate's store into the inode block: this slot changes, the other seven do not. */
  function PutSlot(b: Block, k: nat, w: seq<uint32>): (r: Block)
    requires k < IPB && |w| == DWORDS
    ensures Slot(r, k) == w
    ensures forall m :: 0 <= m < IPB && m != k ==> Slot(r, m) == Slot(b, m)
  {
    PutSlotSlots(b, k, w);
    PutWords(b, DWORDS * k, w, DWORDS)
  }

  lemma PutSlotSlots(b: Block, k: nat, w: seq<uint32>)
    requires k < IPB && |w| == DWORDS
    ensures Slot(PutWords(b, DWORDS * k, w, DWORDS), k) == w
    ensures forall m :: 0 <= m < IPB && m != k ==> Slot(PutWords(b, DWORDS * k, w, DWORDS), m) == Slot(b, m)
  {
    var r := PutWords(b, DWORDS * k, w, DWORDS);
    PutGetWords(b, DWORDS * k, w, DWORDS);
    assert w[..DWORDS] == w;
    forall m | 0 <= m < IPB && m != k ensures Slot(r, m) == Slot(b, m) {
      forall i | DWORDS * m <= i < DWORDS * m + DWORDS ensures Word(r, i) == Word(b, i) {
        PutWordsOutside(b, DWORDS * k, w, DWORDS, i);
      }
      SameWords(r, b, DWORDS * m, DWORDS);
    }
  }

  // ---- The disk

  /** struct superblock; blocks from `size - nblocks` on hold data. */
  datatype Super = Super(size: nat, nblocks: nat, ninodes: nat, inodestart: nat, bmapstart: nat) {
    function DataStart(): int { size - nblocks }

    /** The layout that mkfs makes: inode blocks, then bitmap blocks, then data. */
    predicate Ok(disk: nat) {
      && 0 < inodestart && inodestart + ninodes / IPB + 1 <= bmapstart
      && bmapstart + size / BPB + 1 <= DataStart() && nblocks <= size <= disk < 0x1_0000_0000
    }

    predicate IsData(b: int) { DataStart() <= b < size }

    function IBlock(inum: nat): nat { inum / IPB + inodestart }
    function BBlock(b: nat): nat { b / BPB + bmapstart }
  }

  /** readsb: the layout as the super block has it; words 3 and 4 are the size and place of the log. */
  function SuperOf(b: Block): Super { Super(Word(b, 0), Word(b, 1), Word(b, 2), Word(b, 5), Word(b, 6)) }

  lemma {:induction false} WordIsGot(b: Block, at: nat, n: nat, i: nat)
    requires i < n && at + n <= NWORDS
    ensures GetWords(b, at, n)[i] == Word(b, at + i)
  {
    if i < n - 1 { WordIsGot(b, at, n - 1, i); }
  }
}
