/** Which block belongs to whom.

    A state is the block map as bread and log_write show it, the in-memory inodes, and the
    owner of every allocated data block. The owner of a block is the one place that holds
    its number: a direct address, the indirect address, or an entry of an indirect block. */
module FsState {
  import opened Blocks
  import opened FsLayout

  datatype Ref =
    | Direct(inum: nat, i: nat)     // ip->addrs[i]; i == NDIRECT is the indirect block
    | Entry(inum: nat, j: nat)      // word j of the indirect block
    | Loose                         // allocated, held by no inode at the moment

  datatype State = State(blk: seq<Block>, ino: seq<Inode>, owner: map<nat, Ref>)

  predicate Shape(sb: Super, s: State) {
    sb.Ok(|s.blk|) && |s.ino| == sb.ninodes && forall n :: 0 <= n < |s.ino| ==> s.ino[n].Ok()
  }

  predicate Names(sb: Super, r: Ref) {
    match r
    case Direct(n, i) => n < sb.ninodes && i <= NDIRECT
    case Entry(n, j) => n < sb.ninodes && j < NINDIRECT
    case Loose => false
  }

  /** The block number that the place `r` holds, 0 for none. */
  function AddrOf(sb: Super, s: State, r: Ref): (a: nat)
    requires Shape(sb, s) && Names(sb, r)
  {
    match r
    case Direct(n, i) => s.ino[n].addrs[i]
    case Entry(n, j) =>
      if 0 < s.ino[n].addrs[NDIRECT] < |s.blk| then Word(s.blk[s.ino[n].addrs[NDIRECT]], j) else 0
    case Loose => 0
  }

  /** The free-map bit of block `b`. */
  predicate Marked(sb: Super, s: State, b: nat)
    requires sb.Ok(|s.blk|) && b < sb.size
  {
    BitIn(s.blk[sb.BBlock(b)], b % BPB)
  }

  // ---- Ownership

  ghost predicate RefOk(sb: Super, s: State, r: Ref)
    requires Shape(sb, s) && Names(sb, r)
  {
    AddrOf(sb, s, r) != 0 ==>
      sb.IsData(AddrOf(sb, s, r)) && AddrOf(sb, s, r) in s.owner && s.owner[AddrOf(sb, s, r)] == r
  }

  ghost predicate BlockOk(sb: Super, s: State, b: nat)
    requires Shape(sb, s) && b in s.owner
  {
    sb.IsData(b) && (s.owner[b].Loose? || (Names(sb, s.owner[b]) && AddrOf(sb, s, s.owner[b]) == b))
  }

  ghost predicate BitOk(sb: Super, s: State, b: nat)
    requires Shape(sb, s) && b < sb.size
  {
    Marked(sb, s, b) <==> b < sb.DataStart() || b in s.owner
  }

  /** Every address is a data block of its own, and the free map marks exactly the metadata
      and the owned blocks. */
  ghost predicate Owned(sb: Super, s: State) {
    && Shape(sb, s)
    && (forall r :: Names(sb, r) ==> RefOk(sb, s, r))
    && (forall b :: b in s.owner ==> BlockOk(sb, s, b))
    && (forall b: nat :: b < sb.size ==> BitOk(sb, s, b))
  }

  lemma OwnedShape(sb: Super, s: State)
    requires Owned(sb, s)
    ensures Shape(sb, s)
  {
  }

  lemma DirectOwned(sb: Super, s: State, n: nat, i: nat)
    requires Owned(sb, s) && n < sb.ninodes && i <= NDIRECT && s.ino[n].addrs[i] != 0
    ensures Shape(sb, s) && sb.IsData(s.ino[n].addrs[i]) && s.ino[n].addrs[i] as nat in s.owner
    ensures s.owner[s.ino[n].addrs[i] as nat] == Direct(n, i)
  {
    assert RefOk(sb, s, Direct(n, i));
  }

  /** The same, said without naming owners: addresses do not repeat, over all inodes, and
      the marked data blocks are exactly the addresses in use. */
  lemma OwnedMeans(sb: Super, s: State, q: Ref, r: Ref, b: nat)
    requires Owned(sb, s) && Names(sb, q) && Names(sb, r) && b < sb.size
    requires forall c :: c in s.owner ==> !s.owner[c].Loose?
    ensures AddrOf(sb, s, q) == AddrOf(sb, s, r) != 0 ==> q == r
    ensures AddrOf(sb, s, q) != 0 ==> sb.IsData(AddrOf(sb, s, q)) && Marked(sb, s, AddrOf(sb, s, q))
    ensures sb.IsData(b) && Marked(sb, s, b) ==> exists o :: Names(sb, o) && AddrOf(sb, s, o) == b
    ensures !sb.IsData(b) ==> Marked(sb, s, b)
  {
    assert RefOk(sb, s, q) && RefOk(sb, s, r) && BitOk(sb, s, b);
    if AddrOf(sb, s, q) != 0 { assert BitOk(sb, s, AddrOf(sb, s, q)); }
    if sb.IsData(b) && Marked(sb, s, b) {
      assert BlockOk(sb, s, b);
      assert Names(sb, s.owner[b]);
    }
  }

  // ---- File blocks

  function BRef(inum: nat, bn: nat): Ref {
    if bn < NDIRECT then Direct(inum, bn) else Entry(inum, bn - NDIRECT)
  }

  function BlockAt(blk: seq<Block>, a: nat): Block {
    if 0 < a < |blk| then blk[a] else ZeroBlock
  }

  /** Block `bn` of a file; a block that is not mapped reads as zeros. */
  function FileBlock(sb: Super, s: State, inum: nat, bn: nat): (b: Block)
    requires Shape(sb, s) && inum < sb.ninodes && bn < MAXFILE
  {
    BlockAt(s.blk, AddrOf(sb, s, BRef(inum, bn)))
  }

  /** All files read the same, block for block. */
  ghost predicate SameFiles(sb: Super, s: State, t: State)
    requires Shape(sb, s) && Shape(sb, t)
  {
    forall n: nat, bn: nat :: n < sb.ninodes && bn < MAXFILE ==> FileBlock(sb, t, n, bn) == FileBlock(sb, s, n, bn)
  }

  /** Only block `k` of file `inum` reads differently. */
  ghost predicate OneBlockChanged(sb: Super, s: State, t: State, inum: nat, k: nat, data: Block)
    requires Shape(sb, s) && Shape(sb, t) && inum < sb.ninodes && k < MAXFILE
  {
    forall n: nat, bn: nat :: n < sb.ninodes && bn < MAXFILE ==>
      FileBlock(sb, t, n, bn) == if n == inum && bn == k then data else FileBlock(sb, s, n, bn)
  }

  // ---- The changes that the operations make

  /** balloc: mark a free block and zero it. */
  ghost function Allocated(sb: Super, s: State, b: nat): (t: State)
    requires Shape(sb, s) && sb.IsData(b)
  {
    State(s.blk[sb.BBlock(b) := SetBitIn(s.blk[sb.BBlock(b)], b % BPB)][b := ZeroBlock], s.ino, s.owner[b := Loose])
  }

  lemma MarkBits(sb: Super, s: State, t: State, b: nat, c: nat)
    requires Shape(sb, s) && Shape(sb, t) && |t.blk| == |s.blk| && b < sb.size && c < sb.size
    requires t.blk[sb.BBlock(c)] ==
             if sb.BBlock(c) == sb.BBlock(b) then SetBitIn(s.blk[sb.BBlock(b)], b % BPB) else s.blk[sb.BBlock(c)]
    ensures Marked(sb, t, c) <==> c == b || Marked(sb, s, c)
  {
  }

  lemma AllocatedAddr(sb: Super, s: State, b: nat, r: Ref)
    requires Owned(sb, s) && sb.IsData(b) && b !in s.owner && Names(sb, r)
    ensures Shape(sb, Allocated(sb, s, b)) && AddrOf(sb, Allocated(sb, s, b), r) == AddrOf(sb, s, r)
    ensures RefOk(sb, Allocated(sb, s, b), r) && AddrOf(sb, s, r) != b
  {
    assert RefOk(sb, s, r);
    if r.Entry? { assert RefOk(sb, s, Direct(r.inum, NDIRECT)); }
  }

  lemma AllocatedBit(sb: Super, s: State, b: nat, c: nat)
    requires Owned(sb, s) && sb.IsData(b) && c < sb.size
    ensures Shape(sb, Allocated(sb, s, b)) && BitOk(sb, Allocated(sb, s, b), c)
  {
    assert BitOk(sb, s, c);
    MarkBits(sb, s, Allocated(sb, s, b), b, c);
  }

  lemma AllocatedOwned(sb: Super, s: State, b: nat)
    requires Owned(sb, s) && sb.IsData(b) && !Marked(sb, s, b)
    ensures Owned(sb, Allocated(sb, s, b)) && SameFiles(sb, s, Allocated(sb, s, b))
    ensures b !in s.owner
  {
    hide Marked;
    var t := Allocated(sb, s, b);
    assert BitOk(sb, s, b);
    forall r | Names(sb, r) ensures AddrOf(sb, t, r) == AddrOf(sb, s, r) && RefOk(sb, t, r) {
      AllocatedAddr(sb, s, b, r);
    }
    forall c | c in t.owner ensures BlockOk(sb, t, c) {
      if c != b { assert BlockOk(sb, s, c); }
    }
    forall c: nat | c < sb.size ensures BitOk(sb, t, c) { AllocatedBit(sb, s, b, c); }
    forall n: nat, bn: nat | n < sb.ninodes && bn < MAXFILE ensures FileBlock(sb, t, n, bn) == FileBlock(sb, s, n, bn) {
      AllocatedAddr(sb, s, b, BRef(n, bn));
      assert RefOk(sb, s, BRef(n, bn));
    }
  }

  ghost function SetAddr(s: State, n: nat, i: nat, a: uint32): (t: State)
    requires n < |s.ino| && i < |s.ino[n].addrs|
  {
    s.(ino := s.ino[n := s.ino[n].(addrs := s.ino[n].addrs[i := a])])
  }

  /** bmap stores a fresh block in an inode. */
  ghost function WithDirect(s: State, n: nat, i: nat, b: uint32): (t: State)
    requires n < |s.ino| && i < |s.ino[n].addrs|
  {
    SetAddr(s, n, i, b).(owner := s.owner[b := Direct(n, i)])
  }

  lemma DirectAddrs(sb: Super, s: State, n: nat, i: nat, b: uint32, r: Ref)
    requires Owned(sb, s) && n < sb.ninodes && i <= NDIRECT && Names(sb, r)
    requires b in s.owner && s.owner[b].Loose? && s.blk[b] == ZeroBlock && s.ino[n].addrs[i] == 0
    ensures AddrOf(sb, WithDirect(s, n, i, b), r) == if r == Direct(n, i) then b else AddrOf(sb, s, r)
  {
    assert BlockOk(sb, s, b);
    if r.Entry? && r.inum == n && i == NDIRECT {
      ZeroWord(r.j);
    }
  }

  lemma WithDirectOwned(sb: Super, s: State, n: nat, i: nat, b: uint32)
    requires Owned(sb, s) && n < sb.ninodes && i <= NDIRECT
    requires b in s.owner && s.owner[b].Loose? && s.blk[b] == ZeroBlock && s.ino[n].addrs[i] == 0
    ensures Owned(sb, WithDirect(s, n, i, b)) && SameFiles(sb, s, WithDirect(s, n, i, b))
  {
    var t := WithDirect(s, n, i, b);
    assert BlockOk(sb, s, b);
    forall r | Names(sb, r) ensures RefOk(sb, t, r) {
      assert RefOk(sb, s, r);
      DirectAddrs(sb, s, n, i, b, r);
    }
    forall c | c in t.owner ensures BlockOk(sb, t, c) {
      assert BlockOk(sb, s, c);
      DirectAddrs(sb, s, n, i, b, if c == b || s.owner[c].Loose? then Direct(n, i) else s.owner[c]);
    }
    forall c: nat | c < sb.size ensures BitOk(sb, t, c) {
      assert BitOk(sb, s, c);
    }
    forall m: nat, bn: nat | m < sb.ninodes && bn < MAXFILE ensures FileBlock(sb, t, m, bn) == FileBlock(sb, s, m, bn) {
      DirectAddrs(sb, s, n, i, b, BRef(m, bn));
    }
  }

  /** bmap stores a fresh block in an indirect block. */
  ghost function WithEntry(s: State, n: nat, j: nat, b: uint32): (t: State)
    requires n < |s.ino| && s.ino[n].Ok() && s.ino[n].addrs[NDIRECT] < |s.blk| && j < NINDIRECT
  {
    var ind := s.ino[n].addrs[NDIRECT];
    s.(blk := s.blk[ind := SetWord(s.blk[ind], j, b)], owner := s.owner[b := Entry(n, j)])
  }

  lemma EntryAddrs(sb: Super, s: State, n: nat, j: nat, b: uint32, r: Ref)
    requires Owned(sb, s) && n < sb.ninodes && j < NINDIRECT && Names(sb, r)
    requires s.ino[n].addrs[NDIRECT] != 0
    ensures s.ino[n].addrs[NDIRECT] < |s.blk|
    ensures AddrOf(sb, WithEntry(s, n, j, b), r) == if r == Entry(n, j) then b else AddrOf(sb, s, r)
  {
    assert RefOk(sb, s, Direct(n, NDIRECT));
    if r.Entry? { assert RefOk(sb, s, Direct(r.inum, NDIRECT)); }
  }

  lemma WithEntryOwned(sb: Super, s: State, n: nat, j: nat, b: uint32)
    requires Owned(sb, s) && n < sb.ninodes && j < NINDIRECT
    requires b in s.owner && s.owner[b].Loose? && s.blk[b] == ZeroBlock
    requires s.ino[n].addrs[NDIRECT] != 0 && AddrOf(sb, s, Entry(n, j)) == 0
    ensures s.ino[n].addrs[NDIRECT] < |s.blk|
    ensures Owned(sb, WithEntry(s, n, j, b)) && SameFiles(sb, s, WithEntry(s, n, j, b))
  {
    assert RefOk(sb, s, Direct(n, NDIRECT)) && BlockOk(sb, s, b);
    var t := WithEntry(s, n, j, b);
    forall r | Names(sb, r) ensures RefOk(sb, t, r) { EntryRef(sb, s, n, j, b, r); }
    forall c | c in t.owner ensures BlockOk(sb, t, c) { EntryBlock(sb, s, n, j, b, c); }
    forall c: nat | c < sb.size ensures BitOk(sb, t, c) {
      assert BitOk(sb, s, c);
    }
    forall m: nat, bn: nat | m < sb.ninodes && bn < MAXFILE ensures FileBlock(sb, t, m, bn) == FileBlock(sb, s, m, bn) {
      EntryAddrs(sb, s, n, j, b, BRef(m, bn));
      assert RefOk(sb, s, BRef(m, bn));
    }
  }

  lemma EntryRef(sb: Super, s: State, n: nat, j: nat, b: uint32, r: Ref)
    requires Owned(sb, s) && n < sb.ninodes && j < NINDIRECT && Names(sb, r)
    requires b in s.owner && s.owner[b].Loose?
    requires s.ino[n].addrs[NDIRECT] != 0 && AddrOf(sb, s, Entry(n, j)) == 0
    ensures s.ino[n].addrs[NDIRECT] < |s.blk| && Shape(sb, WithEntry(s, n, j, b)) && RefOk(sb, WithEntry(s, n, j, b), r)
  {
    assert RefOk(sb, s, Direct(n, NDIRECT)) && BlockOk(sb, s, b) && RefOk(sb, s, r);
    EntryAddrs(sb, s, n, j, b, r);
  }

  lemma EntryBlock(sb: Super, s: State, n: nat, j: nat, b: uint32, c: nat)
    requires Owned(sb, s) && n < sb.ninodes && j < NINDIRECT && c in s.owner
    requires b in s.owner && s.owner[b].Loose?
    requires s.ino[n].addrs[NDIRECT] != 0 && AddrOf(sb, s, Entry(n, j)) == 0
    ensures s.ino[n].addrs[NDIRECT] < |s.blk| && Shape(sb, WithEntry(s, n, j, b))
    ensures BlockOk(sb, WithEntry(s, n, j, b), c)
  {
    assert RefOk(sb, s, Direct(n, NDIRECT)) && BlockOk(sb, s, c);
    EntryAddrs(sb, s, n, j, b, if c == b || s.owner[c].Loose? then Entry(n, j) else s.owner[c]);
  }

  /** writei changes the contents of a file block. */
  lemma PutDataOwned(sb: Super, s: State, n: nat, k: nat, data: Block)
    requires Owned(sb, s) && n < sb.ninodes && k < MAXFILE && AddrOf(sb, s, BRef(n, k)) != 0
    ensures AddrOf(sb, s, BRef(n, k)) < |s.blk|
    ensures
      var t := s.(blk := s.blk[AddrOf(sb, s, BRef(n, k)) := data]);
      Owned(sb, t) && OneBlockChanged(sb, s, t, n, k, data)
  {
    assert RefOk(sb, s, BRef(n, k));
    var b := AddrOf(sb, s, BRef(n, k));
    var t := s.(blk := s.blk[b := data]);
    forall r | Names(sb, r) ensures AddrOf(sb, t, r) == AddrOf(sb, s, r) && RefOk(sb, t, r) {
      assert RefOk(sb, s, r);
      if r.Entry? { assert RefOk(sb, s, Direct(r.inum, NDIRECT)); }
    }
    forall c | c in t.owner ensures BlockOk(sb, t, c) { assert BlockOk(sb, s, c); }
    forall c: nat | c < sb.size ensures BitOk(sb, t, c) { assert BitOk(sb, s, c); }
    forall m: nat, bn: nat | m < sb.ninodes && bn < MAXFILE
      ensures FileBlock(sb, t, m, bn) == if m == n && bn == k then data else FileBlock(sb, s, m, bn)
    {
      assert RefOk(sb, s, BRef(m, bn));
    }
  }

  /** iupdate writes an inode block. */
  lemma PutInodeOwned(sb: Super, s: State, x: nat, data: Block)
    requires Owned(sb, s) && sb.inodestart <= x < sb.bmapstart
    ensures
      var t := s.(blk := s.blk[x := data]);
      Owned(sb, t) && SameFiles(sb, s, t)
  {
    var t := s.(blk := s.blk[x := data]);
    forall r | Names(sb, r) ensures AddrOf(sb, t, r) == AddrOf(sb, s, r) && RefOk(sb, t, r) {
      assert RefOk(sb, s, r);
      if r.Entry? { assert RefOk(sb, s, Direct(r.inum, NDIRECT)); }
    }
    forall c | c in t.owner ensures BlockOk(sb, t, c) { assert BlockOk(sb, s, c); }
    forall c: nat | c < sb.size ensures BitOk(sb, t, c) { assert BitOk(sb, s, c); }
    forall m: nat, bn: nat | m < sb.ninodes && bn < MAXFILE ensures FileBlock(sb, t, m, bn) == FileBlock(sb, s, m, bn) {
      assert RefOk(sb, s, BRef(m, bn));
    }
  }

  // ---- Freeing

  /** All files but `n` read the same. */
  ghost predicate OthersSame(sb: Super, s: State, t: State, n: nat)
    requires Shape(sb, s) && Shape(sb, t)
  {
    forall m: nat, bn: nat :: m < sb.ninodes && m != n && bn < MAXFILE ==>
      FileBlock(sb, t, m, bn) == FileBlock(sb, s, m, bn)
  }

  /** Inode `n` lets go of direct block `i`; the block stays marked. */
  ghost function WithoutDirect(s: State, n: nat, i: nat): (t: State)
    requires n < |s.ino| && i < |s.ino[n].addrs|
  {
    SetAddr(s, n, i, 0).(owner := s.owner[s.ino[n].addrs[i] as nat := Loose])
  }

  lemma WithoutDirectOwned(sb: Super, s: State, n: nat, i: nat)
    requires Owned(sb, s) && n < sb.ninodes && i < NDIRECT && s.ino[n].addrs[i] != 0
    ensures Owned(sb, WithoutDirect(s, n, i)) && OthersSame(sb, s, WithoutDirect(s, n, i), n)
  {
    var t := WithoutDirect(s, n, i);
    assert RefOk(sb, s, Direct(n, i));
    forall r | Names(sb, r) ensures RefOk(sb, t, r) {
      assert RefOk(sb, s, r);
    }
    forall c | c in t.owner ensures BlockOk(sb, t, c) { assert BlockOk(sb, s, c); }
    forall c: nat | c < sb.size ensures BitOk(sb, t, c) { assert BitOk(sb, s, c); }
  }

  /** Inode `n` lets go of its indirect block and with it of all entries. */
  ghost function WithoutIndirect(s: State, n: nat): (t: State)
    requires n < |s.ino| && s.ino[n].Ok()
  {
    SetAddr(s, n, NDIRECT, 0).(owner := map b | b in s.owner ::
      if s.owner[b] == Direct(n, NDIRECT) || (s.owner[b].Entry? && s.owner[b].inum == n) then Loose else s.owner[b])
  }

  lemma WithoutIndirectOwned(sb: Super, s: State, n: nat)
    requires Owned(sb, s) && n < sb.ninodes
    ensures Owned(sb, WithoutIndirect(s, n)) && OthersSame(sb, s, WithoutIndirect(s, n), n)
  {
    var t := WithoutIndirect(s, n);
    forall r | Names(sb, r) ensures RefOk(sb, t, r) { assert RefOk(sb, s, r); }
    forall c | c in t.owner ensures BlockOk(sb, t, c) { assert BlockOk(sb, s, c); }
    forall c: nat | c < sb.size ensures BitOk(sb, t, c) { assert BitOk(sb, s, c); }
  }

  /** bfree: unmark a block that no inode holds. */
  ghost function Freed(sb: Super, s: State, b: nat): (t: State)
    requires Shape(sb, s) && b < sb.size
  {
    State(s.blk[sb.BBlock(b) := ClearBitIn(s.blk[sb.BBlock(b)], b % BPB)], s.ino, s.owner - {b})
  }

  lemma UnmarkBits(sb: Super, s: State, b: nat, c: nat)
    requires Shape(sb, s) && b < sb.size && c < sb.size
    ensures Marked(sb, Freed(sb, s, b), c) <==> c != b && Marked(sb, s, c)
  {
  }

  lemma FreedOwned(sb: Super, s: State, b: nat)
    requires Owned(sb, s) && b in s.owner && s.owner[b].Loose?
    ensures sb.IsData(b) && Marked(sb, s, b)
    ensures Owned(sb, Freed(sb, s, b)) && SameFiles(sb, s, Freed(sb, s, b))
  {
    assert BlockOk(sb, s, b) && BitOk(sb, s, b);
    var t := Freed(sb, s, b);
    forall r | Names(sb, r) ensures AddrOf(sb, t, r) == AddrOf(sb, s, r) && RefOk(sb, t, r) {
      assert RefOk(sb, s, r);
      if r.Entry? { assert RefOk(sb, s, Direct(r.inum, NDIRECT)); }
    }
    forall c | c in t.owner ensures BlockOk(sb, t, c) { assert BlockOk(sb, s, c); }
    forall c: nat | c < sb.size ensures BitOk(sb, t, c) {
      assert BitOk(sb, s, c);
      UnmarkBits(sb, s, b, c);
    }
    forall m: nat, bn: nat | m < sb.ninodes && bn < MAXFILE ensures FileBlock(sb, t, m, bn) == FileBlock(sb, s, m, bn) {
      assert RefOk(sb, s, BRef(m, bn));
    }
  }
}
