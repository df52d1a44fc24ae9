/** The disk format by numbers of blocks and bytes: a reader that knows nothing but the offsets in the
    structures of fs.h finds in a healthy file system the files that the other modules speak of. */
module DiskFormat {
  import opened Blocks
  import opened FsLayout
  import opened FsState
  import opened FsFile
  import opened Fs
  import LogSpec

  // ---- The reader

  /** Byte `i` of block `b`. */
  function ByteAt(d: seq<Block>, b: nat, i: nat): nat { if b < |d| && i < 512 then d[b][i] else 0 }

  /** The two bytes, and the four bytes, from byte `i` of block `b` on, the lowest first. */
  function Short(d: seq<Block>, b: nat, i: nat): nat { ByteAt(d, b, i) + 0x100 * ByteAt(d, b, i + 1) }

  function Long(d: seq<Block>, b: nat, i: nat): nat {
    ByteAt(d, b, i) + 0x100 * ByteAt(d, b, i + 1) + 0x1_0000 * ByteAt(d, b, i + 2) + 0x100_0000 * ByteAt(d, b, i + 3)
  }

  /** Inodes have 64 bytes, so eight of them lie in a block. */
  function InodeBlock(istart: nat, n: nat): nat { istart + n / 8 }

  function InodeByte(n: nat): nat { 64 * (n % 8) }

  function TypeOf(d: seq<Block>, istart: nat, n: nat): nat { Short(d, InodeBlock(istart, n), InodeByte(n)) }

  function MajorOf(d: seq<Block>, istart: nat, n: nat): nat { Short(d, InodeBlock(istart, n), InodeByte(n) + 2) }

  function MinorOf(d: seq<Block>, istart: nat, n: nat): nat { Short(d, InodeBlock(istart, n), InodeByte(n) + 4) }

  function LinksOf(d: seq<Block>, istart: nat, n: nat): nat { Short(d, InodeBlock(istart, n), InodeByte(n) + 6) }

  function SizeOf(d: seq<Block>, istart: nat, n: nat): nat { Long(d, InodeBlock(istart, n), InodeByte(n) + 8) }

  /** Address `i` of the thirteen in an inode. */
  function AddressOf(d: seq<Block>, istart: nat, n: nat, i: nat): nat {
    Long(d, InodeBlock(istart, n), InodeByte(n) + 12 + 4 * i)
  }

  /** Where block `bn` of a file is: in the inode, or from the thirteenth on in the block that it names last. */
  function Place(d: seq<Block>, istart: nat, n: nat, bn: nat): nat {
    if bn < 12 then AddressOf(d, istart, n, bn) else Long(d, AddressOf(d, istart, n, 12), 4 * (bn - 12))
  }

  /** Byte `k` of file `n`. */
  function ReadByte(d: seq<Block>, istart: nat, n: nat, k: nat): nat {
    ByteAt(d, Place(d, istart, n, k / 512), k % 512)
  }

  /** Bit `b % 8` of a byte. */
  function BitOf(x: nat, b: nat): nat {
    if b == 0 then x % 2
    else if b == 1 then x / 2 % 2
    else if b == 2 then x / 4 % 2
    else if b == 3 then x / 8 % 2
    else if b == 4 then x / 16 % 2
    else if b == 5 then x / 32 % 2
    else if b == 6 then x / 64 % 2
    else x / 128 % 2
  }

  /** The free map says that block `b` is in use. */
  predicate InUse(d: seq<Block>, bstart: nat, b: nat) {
    BitOf(ByteAt(d, bstart + b / 4096, b % 4096 / 8), b % 8) == 1
  }

  // ---- What it finds

  lemma LongIsWord(d: seq<Block>, b: nat, i: nat)
    requires b < |d| && i < 128
    ensures Long(d, b, 4 * i) == Word(d[b], i)
  {
  }

  lemma Halves(lo: nat, hi: nat)
    requires lo < 0x1_0000
    ensures (lo + 0x1_0000 * hi) % 0x1_0000 == lo && (lo + 0x1_0000 * hi) / 0x1_0000 == hi
  {
  }

  lemma HalfIsShort(d: seq<Block>, b: nat, i: nat)
    requires b < |d| && i < 128
    ensures Short(d, b, 4 * i) == Word(d[b], i) % 0x1_0000
    ensures Short(d, b, 4 * i + 2) == Word(d[b], i) / 0x1_0000
  {
    var lo, hi := Short(d, b, 4 * i), Short(d, b, 4 * i + 2);
    assert Word(d[b], i) == lo + 0x1_0000 * hi;
    Halves(lo, hi);
  }

  lemma HeadWords(ip: Inode)
    requires ip.Ok()
    ensures Encode(ip)[0] % 0x1_0000 == ip.typ && Encode(ip)[0] / 0x1_0000 == ip.major
    ensures Encode(ip)[1] % 0x1_0000 == ip.minor && Encode(ip)[1] / 0x1_0000 == ip.nlink && Encode(ip)[2] == ip.size
  {
    Halves(ip.typ, ip.major);
    Halves(ip.minor, ip.nlink);
  }

  lemma SlotWord(sb: Super, s: State, n: nat, i: nat)
    requires Shape(sb, s) && n < sb.ninodes && Synced(sb, s, n) && i < 16
    ensures sb.IBlock(n) == InodeBlock(sb.inodestart, n) < |s.blk|
    ensures Word(s.blk[sb.IBlock(n)], 16 * (n % 8) + i) == Encode(s.ino[n])[i]
  {
    WordIsGot(s.blk[sb.IBlock(n)], 16 * (n % 8), 16, i);
  }

  lemma HeadRead(sb: Super, s: State, n: nat)
    requires Shape(sb, s) && n < sb.ninodes && Synced(sb, s, n)
    ensures TypeOf(s.blk, sb.inodestart, n) == s.ino[n].typ && LinksOf(s.blk, sb.inodestart, n) == s.ino[n].nlink
    ensures MajorOf(s.blk, sb.inodestart, n) == s.ino[n].major && MinorOf(s.blk, sb.inodestart, n) == s.ino[n].minor
    ensures SizeOf(s.blk, sb.inodestart, n) == s.ino[n].size
  {
    hide Word, Short, Long, Synced, InodeBlock, Encode;
    var b, w := InodeBlock(sb.inodestart, n), 16 * (n % 8);
    HeadWords(s.ino[n]);
    SlotWord(sb, s, n, 0);
    HalfIsShort(s.blk, b, w);
    SlotWord(sb, s, n, 1);
    HalfIsShort(s.blk, b, w + 1);
    SlotWord(sb, s, n, 2);
    LongIsWord(s.blk, b, w + 2);
  }

  lemma AddressRead(sb: Super, s: State, n: nat, i: nat)
    requires Shape(sb, s) && n < sb.ninodes && Synced(sb, s, n) && i <= 12
    ensures AddressOf(s.blk, sb.inodestart, n, i) == s.ino[n].addrs[i]
  {
    hide Word, Long, Synced;
    var b, w := InodeBlock(sb.inodestart, n), 16 * (n % 8);
    SlotWord(sb, s, n, 3 + i);
    LongIsWord(s.blk, b, w + 3 + i);
    assert InodeByte(n) + 12 + 4 * i == 4 * (w + 3 + i);
  }

  lemma PlaceRead(sb: Super, s: State, n: nat, bn: nat)
    requires Healthy(sb, s) && n < sb.ninodes && bn < 140 && AddrOf(sb, s, BRef(n, bn)) != 0
    ensures Place(s.blk, sb.inodestart, n, bn) == AddrOf(sb, s, BRef(n, bn)) < |s.blk|
  {
    assert InodeOk(sb, s, n);
    AddressRead(sb, s, n, if bn < 12 then bn else 12);
    assert RefOk(sb, s, BRef(n, bn));
    if bn >= 12 { LongIsWord(s.blk, s.ino[n].addrs[12], bn - 12); }
  }

  lemma ByteRead(sb: Super, s: State, n: nat, k: nat)
    requires Healthy(sb, s) && n < sb.ninodes && k < s.ino[n].size
    ensures ReadByte(s.blk, sb.inodestart, n, k) == ContentOf(sb, s, n)[k]
  {
    assert InodeOk(sb, s, n);
    BytesAt(sb, s, n, s.ino[n].size, k);
    assert BnMapped(sb, s, n, k / 512);
    PlaceRead(sb, s, n, k / 512);
  }

  lemma BitRead(x: byte, k: nat)
    requires k < 8
    ensures Bit(x, k) <==> BitOf(x, k) == 1
  {
    hide Bit;
    BitDeep(x, k);
    Eighths(x);
  }

  lemma Eighths(x: nat)
    ensures Halved(x, 0) == x && Halved(x, 1) == x / 2 && Halved(x, 2) == x / 4 && Halved(x, 3) == x / 8
    ensures Halved(x, 4) == x / 16 && Halved(x, 5) == x / 32 && Halved(x, 6) == x / 64 && Halved(x, 7) == x / 128
  {
    Quarter(x);
    Quarter(x / 4);
    Quarter(x / 16);
    assert x / 4 / 4 == x / 16 && x / 16 / 4 == x / 64;
  }

  lemma Quarter(x: nat)
    ensures Halved(x, 1) == x / 2 && Halved(x, 2) == x / 4 && x / 2 / 2 == x / 4
    ensures forall k :: 2 <= k ==> Halved(x, k) == Halved(x / 4, k - 2)
  {
    assert x / 2 / 2 == x / 4;
  }

  lemma {:induction false} BitDeep(x: nat, k: nat)
    ensures Bit(x, k) <==> Halved(x, k) % 2 == 1
  {
    if k > 0 { BitDeep(x / 2, k - 1); }
  }

  function Halved(x: nat, k: nat): nat { if k == 0 then x else Halved(x / 2, k - 1) }

  /** The reader finds this type, this number of links and these bytes. */
  ghost predicate Finds(d: seq<Block>, istart: nat, n: nat, typ: nat, links: nat, c: seq<byte>) {
    && TypeOf(d, istart, n) == typ && LinksOf(d, istart, n) == links && SizeOf(d, istart, n) == |c|
    && forall k :: 0 <= k < |c| ==> ReadByte(d, istart, n, k) == c[k]
  }

  /** Every file of a healthy file system, byte by byte. */
  lemma FileRead(sb: Super, s: State, n: nat)
    requires Healthy(sb, s) && n < sb.ninodes
    ensures Shape(sb, s)
    ensures Finds(s.blk, sb.inodestart, n, s.ino[n].typ, s.ino[n].nlink, ContentOf(sb, s, n))
    ensures MajorOf(s.blk, sb.inodestart, n) == s.ino[n].major && MinorOf(s.blk, sb.inodestart, n) == s.ino[n].minor
  {
    assert InodeOk(sb, s, n);
    HeadRead(sb, s, n);
    hide Healthy;
    forall k | 0 <= k < |ContentOf(sb, s, n)| ensures ReadByte(s.blk, sb.inodestart, n, k) == ContentOf(sb, s, n)[k] {
      ByteRead(sb, s, n, k);
    }
  }

  /** The free map of a healthy file system: the blocks before the data are in use, and of the data blocks
      those that some inode or indirect block names. */
  lemma MapRead(sb: Super, s: State, b: nat)
    requires Healthy(sb, s) && b < sb.size
    ensures InUse(s.blk, sb.bmapstart, b) <==> b < sb.DataStart() || b in s.owner
    ensures b in s.owner ==> Shape(sb, s) && Names(sb, s.owner[b]) && AddrOf(sb, s, s.owner[b]) == b
  {
    assert BitOk(sb, s, b);
    BitRead(s.blk[sb.BBlock(b)][b % BPB / 8], b % 8);
    if b in s.owner { assert BlockOk(sb, s, b); }
  }

  /** No block belongs to two places: of files that reach so far, different blocks are different on disk. */
  lemma NoBlockShared(sb: Super, s: State, n: nat, bn: nat, m: nat, bm: nat)
    requires Healthy(sb, s) && n < sb.ninodes && m < sb.ninodes && (n, bn) != (m, bm)
    requires 512 * bn < s.ino[n].size && 512 * bm < s.ino[m].size
    ensures Place(s.blk, sb.inodestart, n, bn) != Place(s.blk, sb.inodestart, m, bm)
    ensures InUse(s.blk, sb.bmapstart, Place(s.blk, sb.inodestart, n, bn))
  {
    assert InodeOk(sb, s, n) && InodeOk(sb, s, m);
    assert BnMapped(sb, s, n, bn) && BnMapped(sb, s, m, bm);
    PlaceRead(sb, s, n, bn);
    PlaceRead(sb, s, m, bm);
    assert RefOk(sb, s, BRef(n, bn)) && RefOk(sb, s, BRef(m, bm));
    MapRead(sb, s, AddrOf(sb, s, BRef(n, bn)));
  }

  // ---- The log

  lemma {:induction false} EntryWord(b: Block, n: nat, i: nat)
    requires i < n <= LogSpec.LOGSIZE
    ensures LogSpec.Entries(b, n)[i] == Word(b, i + 1)
  {
    if i < n - 1 { EntryWord(b, n - 1, i); }
  }

  /** The log just after the header write that commits: the number of blocks, then their numbers; in the blocks
      behind the header their new contents, in the same order. */
  lemma LogRead(lay: LogSpec.Layout, d: seq<Block>, hd: seq<uint32>, vals: seq<Block>)
    requires LogSpec.Fits(lay, d) && LogSpec.ListOk(lay, d, hd) && |vals| == |hd|
    ensures
      var c := LogSpec.Committed(lay, d, hd, vals);
      && |c| == |d| && Long(c, lay.start, 0) == |hd|
      && forall i :: 0 <= i < |hd| ==> Long(c, lay.start, 4 * (i + 1)) == hd[i] && c[lay.start + 1 + i] == vals[i]
  {
    var c := LogSpec.Committed(lay, d, hd, vals);
    LongIsWord(c, lay.start, 0);
    forall i | 0 <= i < |hd| ensures Long(c, lay.start, 4 * (i + 1)) == hd[i] && c[lay.start + 1 + i] == vals[i] {
      EntryWord(c[lay.start], |hd|, i);
      LongIsWord(c, lay.start, i + 1);
    }
  }
}
