/** mkfs.c: an image is built by appending to files, block after block, and the free map is written
    at the end. `exit(1)` and failed assertions are `ok == false`. */
module Mkfs {
  import opened Blocks
  import opened FsLayout
  import opened FsState
  import opened FsFile
  import opened FsCount
  import opened Fs
  import opened MkfsSpec
  import LogSpec

  const FSSIZE: nat := 1000
  const NINODES: nat := 200
  const T_DIR: uint16 := 1
  const T_FILE: uint16 := 2

  /** The layout of the image: boot block, super block, log, inodes, free map, data. */
  function Layout(): (sb: Super)
    ensures sb.Ok(FSSIZE) && sb.size == FSSIZE
  {
    var inodestart := 2 + LogSpec.LOGSIZE;
    var bmapstart := inodestart + NINODES / IPB + 1;
    var nmeta := bmapstart + FSSIZE / BPB + 1;
    Super(FSSIZE, FSSIZE - nmeta, NINODES, inodestart, bmapstart)
  }

  /** A directory, type 1, with the inode number of the root, then `k` files, type 2, each with one link. */
  ghost predicate Typed(ino: seq<Inode>, k: nat) {
    && k + 2 <= |ino| && ino[1].typ == 1 && ino[1].nlink == 1
    && forall i :: 2 <= i < k + 2 ==> ino[i].typ == 2 && ino[i].nlink == 1
  }

  lemma TypedKeeps(ino: seq<Inode>, ino': seq<Inode>, n: nat, k: nat)
    requires Typed(ino, k) && n < |ino| == |ino'| && ino' == ino[n := ino[n].(size := ino'[n].size)]
    ensures Typed(ino', k)
  {
  }

  lemma FullDirectory(k: nat)
    ensures (DIRENT * k) % BSIZE != 0 <==> k % 32 != 0
  {
  }

  class Image {
    const sb: Super
    var blk: seq<Block>
    var freeblock: nat
    var freeinode: nat
    ghost var ino: seq<Inode>          // the inodes, as they are or will be on disk
    ghost var owner: map<nat, Ref>

    /** The start of main: all blocks zeroed but for the super block. */
    constructor ()
      ensures Valid() && sb == Layout() && freeblock == sb.DataStart() && freeinode == 1
      ensures ino == seq(sb.ninodes, n => ZeroInode)
    {
      var l := Layout();
      sb, freeblock, freeinode := l, l.size - l.nblocks, 1;
      var words: seq<uint32> :=
        [l.size, l.nblocks, l.ninodes, LogSpec.LOGSIZE, 2, l.inodestart, l.bmapstart];
      var zero: seq<Block> := seq(FSSIZE, i => ZeroBlock);
      blk := zero[1 := PutWords(ZeroBlock, 0, words, |words|)];
      ino, owner := seq(NINODES, n => ZeroInode), map[];
      new;
      PreambleWritten(sb, blk, words);
      EmptyHealthy(sb, blk, ino);
    }

    ghost predicate Shaped()
      reads this
    {
      && sb.Ok(|blk|) && |blk| == sb.size && freeblock <= sb.size && Packed(sb, blk, freeblock, owner)
      && |ino| == sb.ninodes && forall n :: 0 <= n < |ino| ==> ino[n].Ok()
    }

    ghost function St(): State
      requires sb.Ok(|blk|) && freeblock <= sb.size
      reads this
    {
      StateOf(sb, blk, freeblock, ino, owner)
    }

    /** `din.addrs[i] = freeblock++` for an address that was 0. */
    method TakeDirect(n: nat, din: Inode, i: nat) returns (din': Inode)
      requires Shaped() && Owned(sb, St()) && n < sb.ninodes && din == ino[n] && i <= NDIRECT && din.addrs[i] == 0
      modifies this`freeblock, this`ino, this`owner
      ensures din' == din.(addrs := din.addrs[i := old(freeblock)]) && freeblock == old(freeblock) + 1
      ensures old(freeblock) < sb.size ==> Shaped() && din' == ino[n]
      ensures old(freeblock) < sb.size ==>
        RefMap(sb, old(St()), St(), Direct(n, i)) && Grown(sb, old(St()), St(), n)
    {
      hide Owned, Grown, RefMap, Packed, MarkUpTo;
      PackedBound(sb, blk, freeblock, owner);
      din' := din.(addrs := din.addrs[i := freeblock]);
      if freeblock < sb.size {
        NextDirect(sb, blk, freeblock, ino, owner, n, i);
        ino, owner := ino[n := din'], owner[freeblock := Direct(n, i)];
      }
      freeblock := freeblock + 1;
    }

    /** `indirect[j] = freeblock++` for an entry that was 0, and the write of the indirect block. */
    method TakeEntry(n: nat, ind: uint32, j: nat)
      requires Shaped() && Owned(sb, St()) && n < sb.ninodes && j < NINDIRECT
      requires 0 < ind < |blk| && ind == ino[n].addrs[NDIRECT] && Word(blk[ind], j) == 0
      requires AddrOf(sb, St(), Entry(n, j)) == 0
      modifies this`blk, this`freeblock, this`owner
      ensures old(freeblock) <= sb.size < 0x1_0000_0000 && |blk| == old(|blk|)
      ensures blk == old(blk)[ind := SetWord(old(blk[ind]), j, old(freeblock))] && freeblock == old(freeblock) + 1
      ensures old(freeblock) < sb.size ==> Shaped()
      ensures old(freeblock) < sb.size ==>
        && RefMap(sb, old(St()), St(), Entry(n, j)) && Grown(sb, old(St()), St(), n)
        && AddrOf(sb, St(), Entry(n, j)) == old(freeblock)
    {
      hide Owned, Grown, RefMap, Packed, AddrOf, SetWord;
      PackedBound(sb, blk, freeblock, owner);
      if freeblock < sb.size {
        NextEntry(sb, blk, freeblock, ino, owner, n, j);
        owner := owner[freeblock := Entry(n, j)];
      }
      blk := blk[ind := SetWord(blk[ind], j, freeblock)];
      freeblock := freeblock + 1;
    }

    /** An address of the inode, taken from the free blocks if it is new. A block number beyond the
        image makes the next read of it fail. */
    method MapDirect(n: nat, din: Inode, i: nat) returns (ok: bool, din': Inode, x: uint32)
      requires Shaped() && Owned(sb, St()) && n < sb.ninodes && din == ino[n] && i <= NDIRECT
      modifies this`freeblock, this`ino, this`owner
      ensures ok <==> old(ino[n]).addrs[i] != 0 || FreeSet(sb, old(St())) != {}
      ensures ok ==>
        && Shaped() && din' == ino[n] && x < |blk|
        && RefMap(sb, old(St()), St(), Direct(n, i)) && Grown(sb, old(St()), St(), n)
        && x == ino[n].addrs[i] != 0 && (old(ino[n]).addrs[i] != 0 ==> St() == old(St()))
    {
      hide Owned, Grown, RefMap, Packed;
      ShapedCount(sb, blk, freeblock, ino, owner);
      DirectFacts(sb, St(), n, i);
      din' := din;
      if din.addrs[i] == 0 {
        din' := TakeDirect(n, din, i);
      }
      x := din'.addrs[i];
      ok := x < |blk|;                                            // rsect
    }

    /** The block of the file that holds byte `fbn * BSIZE`. */
    method MapBlock(n: nat, din: Inode, fbn: nat) returns (ok: bool, din': Inode, x: uint32)
      requires Shaped() && Owned(sb, St()) && n < sb.ninodes && din == ino[n] && fbn < MAXFILE
      modifies this`blk, this`freeblock, this`ino, this`owner
      ensures ok <==> |FreeSet(sb, old(St()))| >= NeedOne(sb, old(St()), n, fbn)
      ensures ok ==>
        && Shaped() && din' == ino[n] && x < |blk|
        && OneMap(sb, old(St()), St(), n, fbn) && Grown(sb, old(St()), St(), n)
        && x as nat == AddrOf(sb, St(), BRef(n, fbn)) != 0
        && (AddrOf(sb, old(St()), BRef(n, fbn)) != 0 ==> St() == old(St()))
    {
      hide Owned, Grown, RefMap, OneMap, Packed, FreeSet;
      ghost var s;
      if fbn < NDIRECT {
        s := St();
        ok, din', x := MapDirect(n, din, fbn);
        if ok {
          DirectIsOneMap(sb, s, St(), n, fbn);
        }
        return;
      }
      s := St();
      var ind: uint32;
      ok, din', ind := MapDirect(n, din, NDIRECT);
      x := 0;
      if !ok {
        return;
      }
      ghost var mid := St();
      GrownAddr(sb, s, mid, n, fbn);
      IndCost(sb, s, mid, n, fbn);
      ok, x := MapEntry(n, ind, fbn - NDIRECT);
      if ok {
        GrownKeeps(sb, s, mid, n, BRef(n, fbn));
        GrownTrans(sb, s, mid, St(), n);
        EntryIsOneMap(sb, s, mid, St(), n, fbn);
      }
    }

    method MapEntry(n: nat, ind: uint32, j: nat) returns (ok: bool, x: uint32)
      requires Shaped() && Owned(sb, St()) && n < sb.ninodes && j < NINDIRECT
      requires 0 < ind < |blk| && ind == ino[n].addrs[NDIRECT]
      modifies this`blk, this`freeblock, this`owner
      ensures ok <==> AddrOf(sb, old(St()), Entry(n, j)) != 0 || FreeSet(sb, old(St())) != {}
      ensures ok ==>
        && Shaped() && x < |blk|
        && RefMap(sb, old(St()), St(), Entry(n, j)) && Grown(sb, old(St()), St(), n)
        && x as nat == AddrOf(sb, St(), Entry(n, j)) != 0
        && (AddrOf(sb, old(St()), Entry(n, j)) != 0 ==> St() == old(St()))
    {
      hide Owned, Grown, RefMap, Packed;
      ShapedCount(sb, blk, freeblock, ino, owner);
      ghost var s := St();
      EntryFacts(sb, s, n, j);
      DirectOwned(sb, s, n, NDIRECT);
      MarkOutside(sb, blk, freeblock, ind);
      if Word(blk[ind], j) == 0 {
        TakeEntry(n, ind, j);
      }
      x := Word(blk[ind], j);
      ok := x < |blk|;                                            // rsect
    }

    /** One turn of iappend's loop. */
    method AppendStep(n: nat, din: Inode, o: nat, part: seq<byte>) returns (ok: bool, din': Inode)
      requires Shaped() && Owned(sb, St()) && n < sb.ninodes && din == ino[n]
      requires o % BSIZE + |part| <= BSIZE && o / BSIZE < MAXFILE && o + |part| <= MAXBYTES
      modifies this`blk, this`freeblock, this`ino, this`owner
      ensures ok <==> |FreeSet(sb, old(St()))| >= NeedOne(sb, old(St()), n, o / BSIZE)
      ensures ok ==> Shaped() && din' == ino[n] && OneMap(sb, old(St()), St(), n, o / BSIZE)
      ensures ok ==> Written(sb, old(St()), St(), n, o, part) && BnMapped(sb, St(), n, o / BSIZE)
      ensures ok && BnMapped(sb, old(St()), n, o / BSIZE) ==> St().ino == old(St()).ino
    {
      hide Owned, Grown, OneMap, Written, FreeSet, NeedOne, Packed;
      var x: uint32;
      ghost var s := St();
      ok, din', x := MapBlock(n, din, o / BSIZE);
      if !ok {
        return;
      }
      ghost var mid, k := St(), o / BSIZE;
      MappedOwned(sb, s, mid, n, k);
      var at := o % BSIZE;
      var bp := blk[x];
      var data: Block := bp[..at] + part + bp[at + |part|..];
      PackedWrite(sb, blk, freeblock, owner, x, data);
      blk := blk[x := data];
      assert St() == mid.(blk := mid.blk[x as nat := data]);
      WriteStepDone(sb, s, mid, n, o, part, data);
      OneMapThenData(sb, s, mid, n, k, data);
    }

    /** iappend's loop from `tot` on, relative to the state `s` at its start. */
    method AppendTurn(n: nat, din: Inode, off: nat, data: seq<byte>, tot: nat, ghost s: State)
      returns (ok: bool, din': Inode, tot': nat)
      requires tot < |data| && off + tot < MAXBYTES && (tot == 0 || (off + tot) % BSIZE == 0)
      requires Shaped() && n < sb.ninodes && din == ino[n] && Progress(sb, s, St(), n, off, data[..tot])
      requires RangeMap(sb, s, St(), n, off / BSIZE, UpTo(off, off + tot))
      modifies this`blk, this`freeblock, this`ino, this`owner
      ensures !ok && off + |data| <= MAXBYTES ==> Shape(sb, s) && |FreeSet(sb, s)| < Cost(sb, s, n, off, |data|)
      ensures ok ==> tot < tot' <= |data| && off + tot' <= MAXBYTES && (tot' == |data| || (off + tot') % BSIZE == 0)
      ensures ok ==> Shaped() && din' == ino[n] && Progress(sb, s, St(), n, off, data[..tot'])
      ensures ok ==> RangeMap(sb, s, St(), n, off / BSIZE, UpTo(off, off + tot'))
    {
      hide Progress, Written, Owned, BnMapped, UpTo, RangeMap, OneMap, FreeSet, NeedOne, Need, Packed, StateOf;
      var m := if |data| - tot < BSIZE - (off + tot) % BSIZE then |data| - tot else BSIZE - (off + tot) % BSIZE;
      ghost var mid, part := St(), data[tot..tot + m];
      ProgressFacts(sb, s, mid, n, off, data[..tot]);
      UpToStep(off, off + tot, m);
      assert (off + tot) % BSIZE + m <= BSIZE && off + tot + m <= MAXBYTES;
      ok, din' := AppendStep(n, din, off + tot, data[tot..tot + m]);
      tot' := tot + m;
      if ok {
        RangeStep(sb, s, mid, St(), n, off / BSIZE, (off + tot) / BSIZE);
        ProgressStep(sb, s, mid, St(), n, off, data[..tot], part);
        assert data[..tot] + part == data[..tot + m];
      } else if off + |data| <= MAXBYTES {
        UpToMonotone(off, off + tot + m, off + |data|);
        TurnFails(sb, s, mid, n, off / BSIZE, (off + tot) / BSIZE, UpTo(off, off + |data|));
      }
    }

    method AppendLoop(n: nat, din: Inode, data: seq<byte>) returns (ok: bool, din': Inode)
      requires Shaped() && n < sb.ninodes && din == ino[n] && Owned(sb, St()) && FileOk(sb, St(), n)
      modifies this`blk, this`freeblock, this`ino, this`owner
      ensures !ok && din.size + |data| <= MAXBYTES ==>
        Shape(sb, old(St())) && |FreeSet(sb, old(St()))| < Cost(sb, old(St()), n, din.size, |data|)
      ensures ok ==> Shaped() && din' == ino[n] && din.size + |data| <= MAXBYTES
      ensures ok ==> Progress(sb, old(St()), St(), n, din.size, data)
      ensures ok ==> RangeMap(sb, old(St()), St(), n, din.size / BSIZE, UpTo(din.size, din.size + |data|))
    {
      hide Progress, Owned, FileOk, UpTo, RangeMap, FreeSet, Cost, Packed;
      ghost var s := St();
      var off: nat := din.size;
      AppendStart(sb, s, n);
      var tot := 0;
      din' := din;
      assert data[..0] == [];
      while tot < |data|
        invariant 0 <= tot <= |data| && off + tot <= MAXBYTES
        invariant tot == 0 || tot == |data| || (off + tot) % BSIZE == 0
        invariant Shaped() && din' == ino[n] && Progress(sb, s, St(), n, off, data[..tot])
        invariant RangeMap(sb, s, St(), n, off / BSIZE, UpTo(off, off + tot))
      {
        if (off + tot) / BSIZE >= MAXFILE {
          return false, din';                                     // assert(fbn < MAXFILE)
        }
        ok, din', tot := AppendTurn(n, din', off, data, tot, s);
        if !ok {
          return;
        }
      }
      assert data[..|data|] == data;
      ok := true;
    }

    /** winode */
    method Winode(n: nat, din: Inode)
      requires Shaped() && n < sb.ninodes && din == ino[n] && Owned(sb, St())
      modifies this`blk
      ensures Shaped() && Updated(sb, old(St()), St(), n)
    {
      hide Owned, Updated, Packed;
      var x := sb.IBlock(n);
      ghost var s := St();
      InodeStoredIs(sb, s, n);
      var bp := PutSlot(blk[x], n % IPB, Encode(din));
      PackedWrite(sb, blk, freeblock, owner, x, bp);
      blk := blk[x := bp];
      assert St() == InodeStored(sb, s, n);
    }

    /** rinode */
    method Rinode(n: nat) returns (din: Inode)
      requires Shaped() && n < sb.ninodes && Healthy(sb, St())
      ensures din == ino[n]
    {
      hide Packed, Owned;
      din := Decode(Slot(blk[sb.IBlock(n)], n % IPB));
      assert InodeOk(sb, St(), n);
      MarkOutside(sb, blk, freeblock, sb.IBlock(n));
      DecodeEncode(ino[n]);
    }

    /** What holds between the calls of main: the state is healthy, every file is mapped exactly as
        far as it reaches, and the inodes from `freeinode` on are unused. */
    ghost predicate Valid()
      reads this
    {
      && Shaped() && Healthy(sb, St()) && AllExact(sb, St())
      && 0 < freeinode && forall n :: freeinode <= n < sb.ninodes ==> ino[n] == ZeroInode
    }

    /** iappend: the bytes are at the end of the file, unless they make it too long or the image is
        full. */
    method Iappend(n: nat, data: seq<byte>) returns (ok: bool)
      requires Valid() && 0 < n < freeinode <= sb.ninodes
      modifies this`blk, this`freeblock, this`ino, this`owner
      ensures ok <==>
        && old(ino[n]).size + |data| <= MAXBYTES
        && old(freeblock) + BlocksFor(old(ino[n]).size + |data|) <= sb.size + BlocksFor(old(ino[n]).size)
      ensures ok ==> Valid() && Appended(sb, old(St()), St(), n, data)
      ensures ok ==> freeblock + BlocksFor(old(ino[n]).size) == old(freeblock) + BlocksFor(ino[n].size)
      ensures ok ==> forall m :: 0 <= m < sb.ninodes && m != n ==> ino[m] == old(ino[m])
    {
      hide Healthy, AllExact, Packed, Progress, RangeMap, UpTo, Cost, FreeSet, BlocksFor, Spliced, Updated;
      hide Owned, FileOk;
      ghost var s := St();
      HealthyFile(sb, s, n);
      ShapedCount(sb, blk, freeblock, ino, owner);
      var din := Rinode(n);
      var off: nat := din.size;
      AppendCosts(sb, s, n, |data|);
      ok, din := AppendLoop(n, din, data);
      if !ok {
        return;
      }
      ghost var t := St();
      ShapedCount(sb, blk, freeblock, ino, owner);
      AppendPaid(sb, s, t, n, |data|);
      din := din.(size := off + |data|);
      ino := ino[n := din];
      AppendOwned(sb, s, t, n, data);
      Winode(n, din);
      AppendDone(sb, s, t, St(), n, data);
    }

    /** ialloc: the next inode, empty. */
    method Ialloc(typ: uint16) returns (n: nat)
      requires Valid() && freeinode < sb.ninodes
      modifies this`blk, this`freeinode, this`ino
      ensures Valid() && n == old(freeinode) && freeinode == n + 1
      ensures ino == old(ino)[n := Inode(typ, 0, 0, 1, 0, ZeroInode.addrs)]
      ensures forall m: nat :: m < sb.ninodes ==> FileIs(sb, St(), m, ContentOf(sb, old(St()), m))
    {
      hide Healthy, AllExact, Packed, Updated, Owned, FileIs;
      ghost var s := St();
      n := freeinode;
      HealthyFile(sb, s, n);
      freeinode := freeinode + 1;
      var din := Inode(typ, 0, 0, 1, 0, seq(NDIRECT + 1, i => 0));
      assert din.addrs == ZeroInode.addrs;
      SetInodeOwned(sb, s, n, din);
      ino := ino[n := din];
      Winode(n, din);
      AllocDone(sb, s, St(), n, din);
    }

    /** The end of main: the size of the root directory is rounded up. */
    method FixRoot(n: nat)
      requires Valid() && n < sb.ninodes
      modifies this`blk, this`ino
      ensures Shaped() && freeblock == old(freeblock)
      ensures ino == old(ino)[n := old(ino[n]).(size := ino[n].size)]
      ensures ino[n].size == RootSize(old(ino[n]).size) && SameFiles(sb, old(St()), St())
      ensures Shape(sb, St()) && (Healthy(sb, St()) <==> FileOk(sb, St(), n))
      ensures forall m: nat :: m < sb.ninodes ==> Synced(sb, St(), m)
      ensures Healthy(sb, St()) <==> old(ino[n]).size % BSIZE != 0
    {
      hide Healthy, AllExact, Packed, Updated, Owned, SameFiles, SameAddrs, FileOk, Synced;
      ghost var s := St();
      HealthyFile(sb, s, n);
      var din := Rinode(n);
      var off := din.size;
      off := (off / BSIZE + 1) * BSIZE;
      din := din.(size := off);
      SetInodeOwned(sb, s, n, din);
      ino := ino[n := din];
      Winode(n, din);
      SetInodeDone(sb, s, St(), n, din);
      FixedRoot(sb, s, St(), n);
    }

    /** balloc: the free map, in its first block; true of the unfinished image's state becomes true
        of the disk. */
    method Balloc(used: nat) returns (ok: bool)
      requires Shaped() && used == freeblock
      modifies this`blk
      ensures ok <==> used < BPB
      ensures ok ==> State(blk, ino, owner) == old(St()) && Preamble(sb, blk)
    {
      hide Packed, Preamble, MarkUpTo, SetBitIn;
      ok := used < BPB;
      if !ok {
        return;
      }
      FirstMap(sb, blk, freeblock, owner);
      ghost var was := blk;
      var buf: Block := ZeroBlock;
      var i := 0;
      MarkNone(sb, was);
      assert was[sb.bmapstart := buf] == was;
      while i < used
        invariant 0 <= i <= used && blk == was && MarkUpTo(sb, was, i) == was[sb.bmapstart := buf]
      {
        MarkFirst(sb, was, i, buf);
        buf := SetBitIn(buf, i);
        i := i + 1;
      }
      PreambleStays(sb, blk, freeblock, owner, buf);
      blk := blk[sb.bmapstart := buf];
    }

    /** The loop that reads a file of the host and appends it piece by piece. */
    method AppendFile(n: nat, content: seq<byte>) returns (ok: bool)
      requires Valid() && 0 < n < freeinode <= sb.ninodes && ino[n].size == 0
      modifies this`blk, this`freeblock, this`ino, this`owner
      ensures ok <==> |content| <= MAXBYTES && old(freeblock) + BlocksFor(|content|) <= sb.size
      ensures ok ==> Valid() && Appended(sb, old(St()), St(), n, content)
      ensures ok ==> freeblock == old(freeblock) + BlocksFor(|content|)
      ensures ok ==> forall m :: 0 <= m < sb.ninodes && m != n ==> ino[m] == old(ino[m])
    {
      hide Healthy, AllExact, Packed, Spliced, BlocksFor;
      ghost var s, f := St(), freeblock;
      AppendedNone(sb, s, n);
      BlocksForNone();
      var i := 0;
      assert content[..0] == [];
      while i < |content|
        invariant 0 <= i <= |content| && i <= MAXBYTES && Valid() && Appended(sb, s, St(), n, content[..i])
        invariant freeblock == f + BlocksFor(i)
        invariant forall m :: 0 <= m < sb.ninodes && m != n ==> ino[m] == old(ino[m])
      {
        var m := if |content| - i < BSIZE then |content| - i else BSIZE;
        ghost var t := St();
        ok := Iappend(n, content[i..i + m]);
        BlocksForGrows(i + m, |content|);
        if !ok {
          return;
        }
        AppendedTrans(sb, s, t, St(), n, content[..i], content[i..i + m]);
        assert content[..i] + content[i..i + m] == content[..i + m];
        i := i + m;
      }
      assert content[..|content|] == content;
      ok := true;
    }

    /** What main has made of `files` so far. */
    ghost predicate Holding(files: seq<HostFile>)
      reads this
    {
      && Valid() && freeinode == |files| + 2 <= sb.ninodes < 0x1_0000 && ino[ROOTINO].size == DIRENT * (|files| + 2)
      && Made(sb, St(), files) && Typed(ino, |files|)
      && freeblock == sb.DataStart() + BlocksFor(DIRENT * (|files| + 2)) + Sum(files)
    }

    /** One turn of main's loop: the inode, the directory entry, the contents. */
    method AddFile(f: HostFile, ghost files: seq<HostFile>) returns (ok: bool)
      requires Holding(files) && freeinode < sb.ninodes && SLASH !in f.name
      modifies this
      ensures ok <==>
        && DIRENT * (|files| + 3) <= MAXBYTES && |f.content| <= MAXBYTES
        && sb.DataStart() + BlocksFor(DIRENT * (|files| + 3)) + Sum(files) + BlocksFor(|f.content|) <= sb.size
      ensures ok ==> Holding(files + [f])
    {
      hide Healthy, AllExact, Packed, Spliced, BlocksFor, FileIs, Made, Dirent;
      ghost var s := St();
      var n := Ialloc(T_FILE);
      ghost var t := St();
      ok := Iappend(ROOTINO, Dirent(n, f.Stored()));
      if !ok {
        return;
      }
      ghost var u := St();
      ok := AppendFile(n, f.content);
      if ok {
        MadeStep(sb, s, t, u, St(), files, f);
      }
    }

    /** The root directory: an inode and the entries for itself and its parent. */
    method MakeRoot()
      requires Valid() && sb == Layout() && freeblock == sb.DataStart() && freeinode == 1
      modifies this
      ensures Holding([])
    {
      hide Healthy, AllExact, Packed, Spliced, FileIs, Made, Dirent;
      var n := Ialloc(T_DIR);
      ghost var s := St();
      var ok := Iappend(n, Dirent(ROOTINO, [DOT]));
      ghost var t := St();
      ok := Iappend(n, Dirent(ROOTINO, [DOT, DOT]));
      MadeRoot(sb, s, t, St());
    }

    /** The loop of main over the files on the command line. */
    method AddFiles(files: seq<HostFile>) returns (ok: bool)
      requires Holding([]) && sb == Layout() && |files| + 2 <= sb.ninodes
      modifies this
      ensures ok <==> Fit(sb, files)
      ensures ok ==> Holding(files)
    {
      hide Valid, Made, BlocksFor, Sum, Fit;
      NothingFits();
      var k := 0;
      assert files[..0] == [];
      while k < |files|
        invariant 0 <= k <= |files| && Holding(files[..k]) && Fit(sb, files[..k])
      {
        FitStep(sb, files, k);
        if SLASH in files[k].name {
          return false;                                           // assert(index(argv[i], '/') == 0)
        }
        if files[k].name == [] {
          return false;                                           // open fails
        }
        ok := AddFile(files[k], files[..k]);
        if !ok {
          return;
        }
        k := k + 1;
      }
      assert files[..|files|] == files;
      ok := true;
    }

    /** The end of main. */
    method Finish(ghost files: seq<HostFile>) returns (ok: bool)
      requires Holding(files) && sb == Layout()
      modifies this`blk, this`ino
      ensures ok && |blk| == sb.size && Shape(sb, State(blk, ino, owner)) && Holds(sb, State(blk, ino, owner), files)
      ensures ino == Decoded(sb, blk) && (Mountable(sb, blk) <==> (|files| + 2) % 32 != 0)
      ensures Healthy(sb, State(blk, ino, owner)) <==> (|files| + 2) % 32 != 0
      ensures Preamble(sb, blk) && Typed(ino, |files|)
    {
      hide Healthy, Holds, Made, BlocksFor, SameFiles, AllExact, Packed, Preamble, FileOk, Synced, Decoded, Mountable;
      hide Typed, Sum, MarkUpTo, RootSize;
      ghost var before, was := St(), ino;
      FixRoot(ROOTINO);
      TypedKeeps(was, ino, ROOTINO, |files|);
      FullDirectory(|files| + 2);
      MadeHolds(sb, before, St(), files);
      SyncedDecoded(sb, St());
      HoleStays(sb, St(), ROOTINO);
      ok := Balloc(freeblock);
    }
  }

  lemma HoldsList(sb: Super, s: State, files: seq<HostFile>)
    requires Holds(sb, s, files)
    ensures Lists(Bytes(sb, s, ROOTINO, 16 * (|files| + 2)), files)
  {
    EntriesList(files);
  }

  lemma NothingFits()
    ensures Fit(Layout(), [])
  {
  }

  /** mkfs: on the files that fit, an image that holds them. It can be mounted as a healthy file system
      if and only if the entries of the root directory do not fill their last block; otherwise the
      rounded size makes a hole. */
  method MakeImage(files: seq<HostFile>) returns (ok: bool, image: seq<Block>, ghost s: State)
    requires |files| + 2 <= NINODES
    ensures ok <==> Fit(Layout(), files)
    ensures ok ==> |image| == FSSIZE && s == State(image, Decoded(Layout(), image), s.owner)
    ensures ok ==> Holds(Layout(), s, files) && Lists(Bytes(Layout(), s, ROOTINO, 16 * (|files| + 2)), files)
    ensures ok ==> Preamble(Layout(), image) && Typed(s.ino, |files|)
    ensures ok ==> (Mountable(Layout(), image) <==> (|files| + 2) % 32 != 0)
    ensures ok ==> (Healthy(Layout(), s) <==> (|files| + 2) % 32 != 0)
  {
    hide Holds, Healthy, Preamble, Typed, Fit, Decoded, Mountable, Image.Holding, Image.Valid;
    image, s := [], State([], [], map[]);
    var img := new Image();
    img.MakeRoot();
    ok := img.AddFiles(files);
    if ok {
      ok := img.Finish(files);
      image, s := img.blk, State(img.blk, img.ino, img.owner);
      HoldsList(Layout(), s, files);
    }
  }

  /** Thirty empty files fill the root directory's first block, and mkfs makes an image with a hole. */
  method HoledImage() returns (image: seq<Block>)
    ensures |image| == FSSIZE && !Mountable(Layout(), image)
  {
    var files := seq(30, i => HostFile([0x61], []));
    EmptyFilesFit(Layout(), files);
    hide Fit, Mountable;
    var ok;
    ghost var s;
    ok, image, s := MakeImage(files);
  }
}
