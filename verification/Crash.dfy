/** Files across a crash: a chunk of filewrite, run through the log, is found after recovery either
    not at all or completely, in a healthy file system. */
module Crash {
  import opened Blocks
  import opened FsLayout
  import opened FsState
  import opened FsFile
  import opened FsCount
  import opened Fs
  import opened File
  import opened Journal
  import opened Bio
  import L = LogSpec
  import Log

  // ---- What a disk says about files

  /** A file system that is mounted from the disk `d` is healthy, and has the inodes and the file
      contents of `s`. */
  ghost predicate Reads(sb: Super, d: seq<Block>, s: State) {
    && Healthy(sb, s) && sb.Ok(|d|) && Decoded(sb, d) == s.ino
    && Healthy(sb, State(d, Decoded(sb, d), s.owner))
    && forall n: nat :: n < sb.ninodes ==> FileIs(sb, State(d, Decoded(sb, d), s.owner), n, ContentOf(sb, s, n))
  }

  /** The log lies between the super block and the inodes, and in the kernel its blocks can be cached all at
      once. */
  ghost predicate Placed(sb: Super, lay: L.Layout) {
    1 < sb.inodestart && lay.size <= NBUF && forall b :: L.InLog(lay, b) ==> 1 < b < sb.inodestart
  }

  /** The super block of `d` says that this is the layout. */
  ghost predicate Described(sb: Super, lay: L.Layout, d: seq<Block>) {
    1 < |d| && SuperOf(d[1]) == sb && Log.LayoutOf(d[1]) == lay
  }

  /** A disk from which the kernel comes up with the files of `s`. */
  ghost predicate Bootable(sb: Super, lay: L.Layout, d: seq<Block>, s: State) {
    && Described(sb, lay, d) && L.HeaderOk(lay, d)
    && Described(sb, lay, L.Recovered(lay, d)) && Reads(sb, L.Recovered(lay, d), s)
  }

  ghost predicate SameFrom(at: nat, d: seq<Block>, e: seq<Block>) {
    |d| == |e| && forall b :: at <= b < |d| ==> d[b] == e[b]
  }

  /** Owners, free map and files live in the blocks from the inodes on. */
  lemma SameOwned(sb: Super, s: State, d: seq<Block>)
    requires Owned(sb, s) && SameFrom(sb.inodestart, d, s.blk)
    ensures Owned(sb, s.(blk := d)) && SameFiles(sb, s, s.(blk := d)) && SameAddrs(sb, s, s.(blk := d))
  {
    var t := s.(blk := d);
    forall r | Names(sb, r) ensures AddrOf(sb, t, r) == AddrOf(sb, s, r) && RefOk(sb, t, r) {
      assert RefOk(sb, s, r);
      if r.Entry? { assert RefOk(sb, s, Direct(r.inum, NDIRECT)); }
    }
    forall c | c in t.owner ensures BlockOk(sb, t, c) { assert BlockOk(sb, s, c); }
    forall c: nat | c < sb.size ensures BitOk(sb, t, c) { assert BitOk(sb, s, c); }
    forall n: nat, bn: nat | n < sb.ninodes && bn < MAXFILE ensures FileBlock(sb, t, n, bn) == FileBlock(sb, s, n, bn) {
      assert RefOk(sb, s, BRef(n, bn));
    }
  }

  lemma SameInode(sb: Super, s: State, d: seq<Block>, n: nat)
    requires Healthy(sb, s) && SameFrom(sb.inodestart, d, s.blk) && n < sb.ninodes
    requires Owned(sb, s.(blk := d)) && SameFiles(sb, s, s.(blk := d)) && SameAddrs(sb, s, s.(blk := d))
    ensures InodeOk(sb, s.(blk := d), n) && Content(sb, s.(blk := d), n) == ContentOf(sb, s, n)
    ensures Decoded(sb, d)[n] == s.ino[n]
  {
    hide Owned;
    OwnedShape(sb, s);
    OwnedShape(sb, s.(blk := d));
    assert InodeOk(sb, s, n);
    SameAddrsMapped(sb, s, s.(blk := d), n, s.ino[n].size);
    SameBytes(sb, s, s.(blk := d), n, s.ino[n].size);
    DecodeEncode(s.ino[n]);
  }

  lemma HomeDecides(sb: Super, s: State, d: seq<Block>)
    requires Healthy(sb, s) && SameFrom(sb.inodestart, d, s.blk)
    ensures Reads(sb, d, s)
  {
    var t := s.(blk := d);
    SameOwned(sb, s, d);
    forall n: nat | n < sb.ninodes ensures InodeOk(sb, t, n) && Decoded(sb, d)[n] == s.ino[n] {
      SameInode(sb, s, d, n);
    }
    assert Decoded(sb, d) == s.ino;
    forall n: nat | n < sb.ninodes ensures FileIs(sb, t, n, ContentOf(sb, s, n)) { SameInode(sb, s, d, n); }
  }

  lemma SameHomeReads(sb: Super, lay: L.Layout, s: State, d: seq<Block>)
    requires Healthy(sb, s) && Placed(sb, lay) && L.SameHome(lay, d, s.blk) && Described(sb, lay, s.blk)
    ensures Reads(sb, d, s) && Described(sb, lay, d)
  {
    hide Healthy, Reads;
    HomeDecides(sb, s, d);
  }

  // ---- Every disk of a transaction

  /** Whenever the machine stops, and however often recovery is cut short, the kernel then comes up with
      `s` before write `n` of the transaction and with `u` from it on. */
  ghost predicate CrashSafe(sb: Super, lay: L.Layout, s: State, u: State, a: Log.Store, e: Log.Store, n: nat) {
    && a.trace <= e.trace
    && forall k, ds: seq<L.Disk> {:trigger L.CrashingBoots(lay, ds), e.trace[k]} ::
         |a.trace| <= k < |e.trace| && |ds| > 0 && ds[0] == e.trace[k] && L.CrashingBoots(lay, ds) ==>
           Bootable(sb, lay, ds[|ds| - 1], if k < |a.trace| + n then s else u)
  }

  lemma BetweenDescribed(sb: Super, lay: L.Layout, d: seq<Block>, before: seq<Block>, after: seq<Block>,
                         blk: seq<Block>, blk': seq<Block>)
    requires L.OldOrNew(lay, d, before, after) && L.SameHome(lay, before, blk) && L.SameHome(lay, after, blk')
    requires Placed(sb, lay) && Described(sb, lay, blk) && Described(sb, lay, blk')
    ensures Described(sb, lay, d)
  {
  }

  lemma TraceIsSafe(sb: Super, lay: L.Layout, s: State, u: State, a: Log.Store, e: Log.Store, n: nat)
    requires Healthy(sb, s) && Healthy(sb, u) && Placed(sb, lay) && Log.SafeTrace(lay, a, e, n)
    requires L.SameHome(lay, a.disk, s.blk) && L.SameHome(lay, e.disk, u.blk)
    requires Described(sb, lay, s.blk) && Described(sb, lay, u.blk)
    ensures CrashSafe(sb, lay, s, u, a, e, n)
  {
    hide Healthy, Reads, Placed, Described, L.CrashingBoots, L.HeaderOk, L.Recovered, L.OldOrNew;
    forall k, ds: seq<L.Disk> |
      |a.trace| <= k < |e.trace| && |ds| > 0 && ds[0] == e.trace[k] && L.CrashingBoots(lay, ds)
      ensures Bootable(sb, lay, ds[|ds| - 1], if k < |a.trace| + n then s else u)
    {
      assert Log.SafeAt(lay, a, e, n, k);
      BetweenDescribed(sb, lay, ds[|ds| - 1], a.disk, e.disk, s.blk, u.blk);
      SameHomeReads(sb, lay, if k < |a.trace| + n then s else u, L.Recovered(lay, ds[|ds| - 1]));
    }
  }

  // ---- Operations through the log

  /** The log holds the blocks of the file system, and nothing is under way. */
  ghost predicate Holds(sb: Super, blk: seq<Block>, log: Log.Log)
    reads log, log.bc
  {
    && log.Valid() && log.Holding({}, Log.NONE, Log.NONE) && log.lh == []
    && Placed(sb, log.Lay()) && Described(sb, log.Lay(), blk)
    && L.SameHome(log.Lay(), log.bc.logical, blk) && L.SameHome(log.Lay(), log.bc.disk, log.bc.logical)
  }

  /** A file system that runs on the log. */
  ghost predicate Attached(fs: FileSystem, log: Log.Log)
    reads fs, log, log.bc
  {
    Healthy(fs.sb, fs.St()) && Holds(fs.sb, fs.blk, log)
  }

  lemma TracksAccesses(sb: Super, lay: L.Layout, l: L.Disk, d: L.Disk, base: seq<Block>, blk: seq<Block>, lg: set<nat>,
                       ops: seq<Access>, seen: seq<Block>)
    requires Tracks(sb, base, blk, lg, ops, seen) && Placed(sb, lay)
    requires L.SameHome(lay, l, base) && L.SameHome(lay, d, l)
    ensures forall i :: 0 <= i < |ops| ==> AccessOk(lay, |d|, ops[i])
    ensures L.SameHome(lay, After(l, ops), blk) && Views(l, ops) == seen
  {
    SameHomeAfter(lay, l, base, ops);
  }

  lemma TracksDescribed(sb: Super, lay: L.Layout, base: seq<Block>, blk: seq<Block>, lg: set<nat>, ops: seq<Access>,
                        seen: seq<Block>)
    requires Tracks(sb, base, blk, lg, ops, seen) && Placed(sb, lay) && Described(sb, lay, base)
    ensures Described(sb, lay, blk)
  {
    AfterBelow(base, ops, sb.inodestart, 1);
  }

  lemma Arrived(lay: L.Layout, a: Log.Store, e: Log.Store, blk: L.Disk, blk': L.Disk, m: L.Disk)
    requires L.SameHome(lay, a.logical, blk) && L.SameHome(lay, a.disk, a.logical)
    requires L.SameHome(lay, m, e.logical) && L.SameHome(lay, e.disk, e.logical) && L.SameHome(lay, m, blk')
    ensures L.SameHome(lay, a.disk, blk) && L.SameHome(lay, e.disk, blk') && L.SameHome(lay, e.logical, blk')
  {
  }

  /** The operation that has led from `s` to the present state, run through the log access by access
      and committed. Each bread sees there what it saw in the block map. Whenever the machine stops,
      recovery finds the file system as it was or with all of the operation, and healthy. */
  method Through(fs: FileSystem, log: Log.Log, ghost s: State) returns (ok: bool, seen: seq<Block>, ghost n: nat)
    requires fs.Tracked() && fs.base == s.blk && Healthy(fs.sb, s) && Healthy(fs.sb, fs.St())
    requires Holds(fs.sb, s.blk, log)
    modifies log`lh, log`outstanding, log.bc
    ensures ok <==> HasRoom(log.Limit(), [], fs.journal)
    ensures ok ==> Attached(fs, log) && seen == fs.seen
    ensures ok ==> CrashSafe(fs.sb, log.Lay(), s, fs.St(), old(log.Now()), log.Now(), n)
  {
    hide Healthy, Tracks, CrashSafe, Placed, Described, L.SameHome, Log.SafeTrace, HasRoom, After, Views;
    ghost var a := log.Now();
    TracksDescribed(fs.sb, log.Lay(), s.blk, fs.blk, fs.logged, fs.journal, fs.seen);
    TracksAccesses(fs.sb, log.Lay(), log.bc.logical, log.bc.disk, s.blk, fs.blk, fs.logged, fs.journal, fs.seen);
    ok, seen, n := log.Transaction(fs.journal);
    if ok {
      Arrived(log.Lay(), a, log.Now(), s.blk, fs.blk, After(a.logical, fs.journal));
      TraceIsSafe(fs.sb, log.Lay(), s, fs.St(), a, log.Now(), n);
    }
  }

  /** An open file on a log that has room for any one operation within its reservation. */
  ghost predicate Mounted(f: OpenFile, log: Log.Log)
    reads f, f.fs, log, log.bc
  {
    f.Valid() && Attached(f.fs, log) && log.size > L.MAXOPBLOCKS
  }

  /** One turn of filewrite's loop with its transaction. The log has room for it. */
  method ChunkThrough(f: OpenFile, log: Log.Log, part: seq<byte>) returns (r: Outcome<int>, ghost n: nat)
    requires Mounted(f, log) && 0 < |part| <= CHUNK
    modifies f`off, f.fs, log`lh, log`outstanding, log.bc
    ensures ChunkDone(f.fs.sb, old(f.fs.St()), f.fs.St(), f.inum, old(f.off), f.off, part, r)
    ensures r.Panic? ==> log.Now() == old(log.Now())
    ensures r.Ok? ==> Mounted(f, log)
    ensures r.Ok? ==> CrashSafe(f.fs.sb, log.Lay(), old(f.fs.St()), f.fs.St(), old(log.Now()), log.Now(), n)
  {
    hide Healthy, ChunkDone, Tracks, CrashSafe, Placed, Described, L.SameHome, HasRoom;
    ghost var s := f.fs.St();
    ghost var count;
    n := 0;
    r, count := f.WriteChunk(part);
    if r.Ok? {
      MoreRoom(L.MAXOPBLOCKS, log.Limit(), [], f.fs.journal);
      var ok, seen;
      ok, seen, n := Through(f.fs, log, s);
    }
  }

  // ---- A whole filewrite

  /** The kernel comes up from `d` with the first `i` bytes of the write, a number of whole chunks or all
      that is kept. */
  ghost predicate Reaches(sb: Super, lay: L.Layout, d: seq<Block>, s: State, inum: nat, start: nat, src: seq<byte>,
                          i: nat)
    requires Healthy(sb, s) && inum < sb.ninodes
  {
    exists t :: Bootable(sb, lay, d, t) && Underway(sb, s, t, inum, start, src, i)
  }

  /** Stopped on disk `j` after `a`, however often recovery is cut short, the machine has `lens[j]` bytes. */
  ghost predicate PrefixSafe(sb: Super, lay: L.Layout, s: State, inum: nat, start: nat, src: seq<byte>, a: Log.Store,
                             e: Log.Store, lens: seq<nat>)
    requires Healthy(sb, s) && inum < sb.ninodes
  {
    && a.trace <= e.trace && |e.trace| == |a.trace| + |lens|
    && forall j, ds: seq<L.Disk> {:trigger L.CrashingBoots(lay, ds), lens[j]} ::
         0 <= j < |lens| && |ds| > 0 && ds[0] == e.trace[|a.trace| + j] && L.CrashingBoots(lay, ds) ==>
           Reaches(sb, lay, ds[|ds| - 1], s, inum, start, src, lens[j])
  }

  /** The lengths grow, up to `i`. */
  predicate Growing(lens: seq<nat>, i: nat) {
    (forall j :: 0 <= j < |lens| ==> lens[j] <= i) && forall j, k :: 0 <= j < k < |lens| ==> lens[j] <= lens[k]
  }

  /** The lengths for one transaction more, which took the file from `i` bytes to `i'` with write `n`. */
  ghost function Lengthened(lens: seq<nat>, m: nat, n: nat, i: nat, i': nat): seq<nat> {
    lens + seq(m, j => if j < n then i else i')
  }

  lemma PrefixStep(sb: Super, lay: L.Layout, s: State, inum: nat, start: nat, src: seq<byte>, a: Log.Store,
                   b: Log.Store, e: Log.Store, lens: seq<nat>, t: State, u: State, n: nat, i: nat, i': nat)
    requires Healthy(sb, s) && inum < sb.ninodes && PrefixSafe(sb, lay, s, inum, start, src, a, b, lens)
    requires CrashSafe(sb, lay, t, u, b, e, n)
    requires Underway(sb, s, t, inum, start, src, i) && Underway(sb, s, u, inum, start, src, i')
    ensures |b.trace| <= |e.trace|
    ensures PrefixSafe(sb, lay, s, inum, start, src, a, e, Lengthened(lens, |e.trace| - |b.trace|, n, i, i'))
  {
    hide Healthy, Bootable, Underway, L.CrashingBoots;
    var all := Lengthened(lens, |e.trace| - |b.trace|, n, i, i');
    forall j, ds: seq<L.Disk> |
      0 <= j < |all| && |ds| > 0 && ds[0] == e.trace[|a.trace| + j] && L.CrashingBoots(lay, ds)
      ensures Reaches(sb, lay, ds[|ds| - 1], s, inum, start, src, all[j])
    {
      if j < |lens| {
        assert ds[0] == b.trace[|a.trace| + j] && all[j] == lens[j];
      } else {
        assert ds[0] == e.trace[|a.trace| + j];
        assert Bootable(sb, lay, ds[|ds| - 1], if |a.trace| + j < |b.trace| + n then t else u);
      }
    }
  }

  lemma GrowingStep(lens: seq<nat>, m: nat, n: nat, i: nat, i': nat)
    requires Growing(lens, i) && i <= i'
    ensures Growing(Lengthened(lens, m, n, i, i'), i')
  {
  }

  lemma PrefixNone(sb: Super, lay: L.Layout, s: State, inum: nat, start: nat, src: seq<byte>, a: Log.Store)
    requires Healthy(sb, s) && inum < sb.ninodes
    ensures PrefixSafe(sb, lay, s, inum, start, src, a, a, [])
    ensures Shape(sb, s) && |s.ino| == sb.ninodes && s.ino[inum].size <= MAXBYTES
    ensures Underway(sb, s, s, inum, start, src, 0)
  {
    hide Healthy, Delivered, Kept;
    HealthySize(sb, s, inum);
    DeliveredNone(sb, s, inum, start);
    assert src[..0] == [];
  }

  /** One turn of filewrite's loop at `src[i..]`; the call began in state `s` and on disk `a`. */
  method TurnThrough(f: OpenFile, log: Log.Log, src: seq<byte>, i: nat, ghost s: State, ghost start: nat,
                     ghost a: Log.Store, ghost lens: seq<nat>) returns (r: Outcome<int>, i': nat, ghost lens': seq<nat>)
    requires Mounted(f, log) && i < |src| && f.off as int == start + i
    requires Healthy(f.fs.sb, s) && Underway(f.fs.sb, s, f.fs.St(), f.inum, start, src, i)
    requires PrefixSafe(f.fs.sb, log.Lay(), s, f.inum, start, src, a, log.Now(), lens) && Growing(lens, i)
    modifies f`off, f.fs, log`lh, log`outstanding, log.bc
    ensures s.ino[f.inum].size <= MAXBYTES
    ensures r.Panic? ==> Shape(f.fs.sb, s) && start <= s.ino[f.inum].size
    ensures r.Panic? ==> |FreeSet(f.fs.sb, s)| < Cost(f.fs.sb, s, f.inum, start, Kept(s.ino[f.inum].size, start, |src|))
    ensures i <= i' <= |src| && Growing(lens', i')
    ensures PrefixSafe(f.fs.sb, log.Lay(), s, f.inum, start, src, a, log.Now(), lens')
    ensures r.Ok? ==> Mounted(f, log) && f.off as int == start + i'
    ensures r.Ok? ==> Underway(f.fs.sb, s, f.fs.St(), f.inum, start, src, i')
    ensures r.Ok? && r.value >= 0 ==> i < i'
    ensures r.Ok? && r.value < 0 ==> i' == Kept(s.ino[f.inum].size, start, |src|) < |src|
  {
    hide Healthy, Delivered, ChunkDone, CrashSafe, PrefixSafe, Growing, Lengthened, Turn, Kept, KeptSoFar, Attached;
    hide Cost, FreeSet, Shape;
    ghost var t, b := f.fs.St(), log.Now();
    ghost var n;
    r, n := ChunkThrough(f, log, src[i..i + Turn(i, |src|)]);
    i', lens' := i, lens;
    if r.Panic? {
      TurnStops(f.fs.sb, s, t, f.fs.St(), f.inum, start, src, i, f.off);
    } else {
      TurnAdds(f.fs.sb, s, t, f.fs.St(), f.inum, start, src, i, f.off, r.value);
      if r.value >= 0 {
        i' := i + r.value;
      }
      PrefixStep(f.fs.sb, log.Lay(), s, f.inum, start, src, a, b, log.Now(), lens, t, f.fs.St(), n, i, i');
      lens' := Lengthened(lens, |log.bc.trace| - |b.trace|, n, i, i');
      GrowingStep(lens, |log.bc.trace| - |b.trace|, n, i, i');
    }
  }

  /** filewrite over the log. Wherever the machine stops, the kernel comes up with the file as far as it
      was written in whole chunks, and the later it stops the further that is. */
  method WriteThrough(f: OpenFile, log: Log.Log, src: seq<byte>) returns (r: Outcome<int>, ghost lens: seq<nat>)
    requires Mounted(f, log)
    modifies f`off, f.fs, log`lh, log`outstanding, log.bc
    ensures old(f.fs.ino[f.inum]).size <= MAXBYTES
    ensures f.writable && old(f.off) > old(f.fs.ino[f.inum]).size ==> r.Ok?
    ensures f.writable && old(f.off) <= old(f.fs.ino[f.inum]).size ==>
      var p := Kept(old(f.fs.ino[f.inum]).size, old(f.off), |src|);
      r.Panic? <==> |FreeSet(f.fs.sb, old(f.fs.St()))| < Cost(f.fs.sb, old(f.fs.St()), f.inum, old(f.off), p)
    ensures PrefixSafe(f.fs.sb, log.Lay(), old(f.fs.St()), f.inum, old(f.off), src, old(log.Now()), log.Now(), lens)
    ensures Growing(lens, |src|)
    ensures !f.writable ==> r == Ok(-1) && lens == []
    ensures f.writable && r.Ok? ==>
      var p := Kept(old(f.fs.ino[f.inum]).size, old(f.off), |src|);
      && Mounted(f, log) && r.value == (if p == |src| then |src| else -1) && f.off as int == old(f.off) + p
      && Delivered(f.fs.sb, old(f.fs.St()), f.fs.St(), f.inum, old(f.off), src[..p])
  {
    hide Healthy, Delivered, PrefixSafe, Kept, Attached, Cost, FreeSet, Shape;
    ghost var s, start, a := f.fs.St(), f.off as nat, log.Now();
    lens := [];
    PrefixNone(f.fs.sb, log.Lay(), s, f.inum, start, src, a);
    if !f.writable {
      return Ok(-1), lens;
    }
    var i := 0;
    while i < |src|
      invariant 0 <= i <= |src| && Mounted(f, log) && f.off as int == start + i
      invariant Underway(f.fs.sb, s, f.fs.St(), f.inum, start, src, i)
      invariant PrefixSafe(f.fs.sb, log.Lay(), s, f.inum, start, src, a, log.Now(), lens) && Growing(lens, i)
    {
      r, i, lens := TurnThrough(f, log, src, i, s, start, a, lens);
      if r.Panic? {
        return;
      }
      if r.value < 0 {
        break;
      }
    }
    r := Ok(if i == |src| then |src| else -1);
    if start <= s.ino[f.inum].size {
      DeliveredPaid(f.fs.sb, s, f.fs.St(), f.inum, start, src[..i]);
    }
  }

  // ---- Truncation

  lemma TruncatedHealthy(sb: Super, s: State, t: State, n: nat)
    requires Healthy(sb, s) && n < sb.ninodes && Truncated(sb, s, t, n)
    ensures Healthy(sb, t)
  {
  }

  /** itrunc as an operation of its own. The log has room for it if it has one block for the inode
      and one for each bitmap block, besides its header; otherwise the kernel may panic. */
  method TruncThrough(fs: FileSystem, log: Log.Log, inum: nat) returns (ok: bool, ghost n: nat)
    requires Attached(fs, log) && inum < fs.sb.ninodes
    modifies fs, log`lh, log`outstanding, log.bc
    ensures Truncated(fs.sb, old(fs.St()), fs.St(), inum)
    ensures fs.sb.size / BPB + 2 <= log.Limit() ==> ok
    ensures ok ==> Attached(fs, log)
    ensures ok ==> CrashSafe(fs.sb, log.Lay(), old(fs.St()), fs.St(), old(log.Now()), log.Now(), n)
  {
    hide Healthy, Truncated, Tracks, CrashSafe, Placed, Described, L.SameHome, HasRoom;
    ghost var s := fs.St();
    fs.Begin();
    ok := fs.Itrunc(inum);
    TruncatedHealthy(fs.sb, s, fs.St(), inum);
    if fs.sb.size / BPB + 2 <= log.Limit() { MoreRoom(fs.sb.size / BPB + 2, log.Limit(), [], fs.journal); }
    var seen;
    ok, seen, n := Through(fs, log, s);
  }

  // ---- Coming up

  lemma BootHolds(sb: Super, lay: L.Layout, d: seq<Block>, s: State)
    requires Bootable(sb, lay, d, s) && Placed(sb, lay)
    ensures L.HeaderOk(lay, d)
    ensures
      var r := L.Recovered(lay, d);
      && sb.Ok(|r|) && Decoded(sb, r) == s.ino && Healthy(sb, State(r, s.ino, s.owner))
      && L.SameHome(lay, r, r)
      && forall n: nat :: n < sb.ninodes ==> FileIs(sb, State(r, s.ino, s.owner), n, ContentOf(sb, s, n))
  {
  }

  /** What forkret does first: iinit reads the super block, initlog recovers. Then the file system with the
      files that the disk had runs on the log. */
  method Boot(image: seq<Block>, ghost sb: Super, ghost lay: L.Layout, ghost s: State)
    returns (fs: FileSystem, log: Log.Log)
    requires |image| < 0x1_0000_0000 && Bootable(sb, lay, image, s) && Placed(sb, lay)
    ensures fresh(fs) && fresh(log) && fresh(log.bc)
    ensures fs.sb == sb && log.Lay() == lay && Attached(fs, log)
    ensures fs.St() == State(L.Recovered(lay, image), s.ino, s.owner)
    ensures forall n: nat :: n < sb.ninodes ==> FileIs(sb, fs.St(), n, ContentOf(sb, s, n))
  {
    hide Healthy, Reads, FileIs, L.Recovered, L.HeaderOk, L.SameHome, Decoded;
    BootHolds(sb, lay, image, s);
    log := Log.PowerUp(image);
    var b := log.Readsb();
    log.Initlog();
    var read := SuperOf(b);
    fs := new FileSystem(read, log.bc.disk, Decoded(read, log.bc.disk), s.owner);
  }
}
