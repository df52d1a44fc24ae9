/** The write-ahead log of log.c, on top of the buffer cache.

    Begin, end and group commit across processes are in module LogGroup; here is what
    happens between two commits, inside one commit, and at boot. */
module Log {
  import opened Blocks
  import opened Collections
  import opened LogSpec
  import opened Journal
  import opened Bio

  /** The dirty buffers are exactly those of the blocks in `s`. */
  ghost predicate PinsExactly(buf: seq<Buf>, slot: map<uint32, nat>, size: nat, s: set<uint32>)
    requires Keyed(buf, slot, size)
  {
    && (forall i :: 0 <= i < NBUF && buf[i].dirty ==> buf[i].blockno in s)
    && (forall b :: b in s ==> b in slot && buf[slot[b]].dirty)
  }

  /** Nobody holds a buffer. */
  ghost predicate Quiet(buf: seq<Buf>)
    requires |buf| == NBUF + 1
  {
    forall i :: 0 <= i < NBUF ==> buf[i].refcnt == 0 && !buf[i].locked
  }

  /** What a sequence of block writes changes: the disk, the logical map, the disk's history. */
  datatype Store = Store(disk: Disk, logical: Disk, trace: seq<Disk>)

  /** One block write that went through the cache. */
  ghost predicate Wrote(a: Store, b: Store, bno: int, v: Block) {
    && 0 <= bno < |a.disk| == |a.logical|
    && b.disk == a.disk[bno := v] && b.logical == a.logical[bno := v] && b.trace == a.trace + [b.disk]
  }

  /** After `n` iterations of write_log. */
  ghost predicate Copied(lay: Layout, a: Store, b: Store, vals: seq<Block>, n: nat) {
    && Fits(lay, a.disk) && |a.logical| == |a.disk| && n <= |vals| < lay.size
    && b.disk == LogCopies(lay, a.disk, vals, n) && b.logical == LogCopies(lay, a.logical, vals, n)
    && b.trace == a.trace + CopyDisks(lay, a.disk, vals, n)
  }

  lemma CopiedNone(lay: Layout, a: Store, vals: seq<Block>)
    requires Fits(lay, a.disk) && |a.logical| == |a.disk| && |vals| < lay.size
    ensures Copied(lay, a, a, vals, 0)
  {
  }

  lemma CopiedOne(lay: Layout, a: Store, b: Store, c: Store, vals: seq<Block>, n: nat)
    requires Copied(lay, a, b, vals, n) && n < |vals| && Wrote(b, c, lay.start + n + 1, vals[n])
    ensures Copied(lay, a, c, vals, n + 1)
  {
    assert c.disk == LogCopies(lay, a.disk, vals, n + 1);
  }

  lemma CopiedLeaves(lay: Layout, a: Store, b: Store, vals: seq<Block>, n: nat, hd: seq<uint32>)
    requires Copied(lay, a, b, vals, n) && ListOk(lay, a.disk, hd)
    ensures Fits(lay, b.disk) && ListOk(lay, b.disk, hd)
    ensures forall i :: 0 <= i < |hd| ==> b.logical[hd[i]] == a.logical[hd[i]]
  {
  }

  /** After `n` iterations of install_trans. */
  ghost predicate Moved(lay: Layout, a: Store, b: Store, hd: seq<uint32>, n: nat) {
    && Fits(lay, a.disk) && |a.logical| == |a.disk| && ListOk(lay, a.disk, hd) && n <= |hd|
    && b.disk == Installed(lay, a.disk, hd, n) && b.logical == Installed(lay, a.logical, hd, n)
    && b.trace == a.trace + InstallDisks(lay, a.disk, hd, n)
  }

  lemma MovedNone(lay: Layout, a: Store, hd: seq<uint32>)
    requires Fits(lay, a.disk) && |a.logical| == |a.disk| && ListOk(lay, a.disk, hd)
    ensures Moved(lay, a, a, hd, 0)
  {
  }

  lemma MovedLeaves(lay: Layout, a: Store, b: Store, hd: seq<uint32>, n: nat)
    requires Moved(lay, a, b, hd, n)
    ensures Fits(lay, b.disk) && ListOk(lay, b.disk, hd) && |b.logical| == |b.disk|
  {
  }

  lemma MovedOne(lay: Layout, a: Store, b: Store, c: Store, hd: seq<uint32>, n: nat)
    requires Moved(lay, a, b, hd, n) && n < |hd|
    requires Wrote(b, c, hd[n], b.logical[lay.start + n + 1])
    requires b.disk[lay.start + n + 1] == b.logical[lay.start + n + 1]
    ensures Moved(lay, a, c, hd, n + 1)
  {
    assert c.disk == Installed(lay, a.disk, hd, n + 1);
    assert c.logical == Installed(lay, a.logical, hd, n + 1);
  }

  ghost function Values(l: Disk, hd: seq<uint32>): (vals: seq<Block>)
    requires forall i :: 0 <= i < |hd| ==> hd[i] < |l|
    ensures |vals| == |hd| && forall i :: 0 <= i < |hd| ==> vals[i] == l[hd[i]]
  {
    seq(|hd|, i requires 0 <= i < |hd| => l[hd[i]])
  }

  /** The effect of a whole commit of the blocks `hd`: the logical home blocks stay as they
      are and the disk catches up with them, through the states of `CommitDisk`. */
  ghost predicate Transacted(lay: Layout, a: Store, b: Store, hd: seq<uint32>) {
    && |a.logical| == |a.disk| && Fits(lay, a.disk) && ListOk(lay, a.disk, hd)
    && SameHome(lay, a.logical, b.logical) && SameHome(lay, b.disk, b.logical)
    && if hd == [] then a == b
       else b.trace == a.trace + CommitDisks(lay, a.disk, hd, Values(a.logical, hd))
  }

  lemma AfterCommitPoint(lay: Layout, a: Store, b: Store, c: Store, hd: seq<uint32>, vals: seq<Block>)
    requires ListOk(lay, a.disk, hd) && |vals| == |hd|
    requires Copied(lay, a, b, vals, |hd|) && Wrote(b, c, lay.start, PutHead(b.disk[lay.start], hd, |hd|))
    ensures c.disk == Committed(lay, a.disk, hd, vals)
    ensures Fits(lay, c.disk) && ListOk(lay, c.disk, hd) && |c.logical| == |c.disk|
    ensures SameHome(lay, c.logical, a.logical)
    ensures HasCopies(lay, c.logical, vals)
  {
    assert vals[..|hd|] == vals;
  }

  /** Writing back to every listed block the value it already has changes no home block. */
  lemma LogicalHome(lay: Layout, a: Disk, c: Disk, e: Disk, hd: seq<uint32>)
    requires Fits(lay, a) && ListOk(lay, a, hd) && Distinct(hd) && SameHome(lay, c, a)
    requires HasCopies(lay, c, Values(a, hd))
    requires e == Installed(lay, c, hd, |hd|)
    ensures SameHome(lay, a, e)
  {
    InstalledHome(lay, a, hd, Values(a, hd), c);
    forall b | 0 <= b < |a| && !InLog(lay, b) ensures a[b] == e[b] {
      if b in hd {
        var i :| 0 <= i < |hd| && hd[i] == b;
        assert e[hd[i]] == Values(a, hd)[i];
      }
    }
  }

  /** Disk and logical map agree after the commit if they did before, off the list. */
  lemma CaughtUp(lay: Layout, a: Store, e: Store, hd: seq<uint32>)
    requires ListOk(lay, a.disk, hd) && |a.logical| == |a.disk|
    requires Updated(lay, a.disk, hd, Values(a.logical, hd), e.disk) && SameHome(lay, a.logical, e.logical)
    requires forall b: nat :: b < |a.disk| && b !in hd ==> a.disk[b] == a.logical[b]
    ensures SameHome(lay, e.disk, e.logical)
  {
    forall b | 0 <= b < |a.disk| && !InLog(lay, b) ensures e.disk[b] == e.logical[b] {
      if b in hd {
        var i :| 0 <= i < |hd| && hd[i] == b;
        assert e.disk[hd[i]] == Values(a.logical, hd)[i];
      }
    }
  }

  lemma HeaderCleared(lay: Layout, d: Store, e: Store)
    requires Fits(lay, d.disk) && Wrote(d, e, lay.start, PutHead(d.disk[lay.start], [], 0))
    ensures e.disk == WriteHead(lay, d.disk, [])
  {
  }

  /** The stages of commit one after the other: copies, header, installs, cleared header. */
  ghost predicate Stages(lay: Layout, a: Store, b: Store, c: Store, d: Store, e: Store, hd: seq<uint32>) {
    && Fits(lay, a.disk) && ListOk(lay, a.disk, hd) && |a.logical| == |a.disk|
    && Copied(lay, a, b, Values(a.logical, hd), |hd|)
    && Wrote(b, c, lay.start, PutHead(b.disk[lay.start], hd, |hd|))
    && Moved(lay, c, d, hd, |hd|)
    && Wrote(d, e, lay.start, PutHead(d.disk[lay.start], [], 0))
  }

  lemma Append(a: seq<Disk>, x: seq<Disk>, y: Disk, z: seq<Disk>, w: Disk)
    ensures (((a + x) + [y]) + z) + [w] == a + (x + [y] + z + [w])
  {
  }

  lemma StagesTrace(lay: Layout, a: Store, b: Store, c: Store, d: Store, e: Store, hd: seq<uint32>)
    requires Stages(lay, a, b, c, d, e, hd)
    ensures e.trace == a.trace + CommitDisks(lay, a.disk, hd, Values(a.logical, hd))
    ensures e.disk == CommitDisk(lay, a.disk, hd, Values(a.logical, hd), 2 * |hd| + 2)
  {
    AfterCommitPoint(lay, a, b, c, hd, Values(a.logical, hd));
    HeaderCleared(lay, d, e);
    hide LogCopies, Installed, WriteHead, Committed, CopyDisks, InstallDisks, Values, HeaderOk, ListOk, SameHome;
    Append(a.trace, CopyDisks(lay, a.disk, Values(a.logical, hd), |hd|), c.disk,
           InstallDisks(lay, c.disk, hd, |hd|), e.disk);
  }

  lemma StagesHome(lay: Layout, a: Store, b: Store, c: Store, d: Store, e: Store, hd: seq<uint32>)
    requires Stages(lay, a, b, c, d, e, hd) && Distinct(hd)
    requires forall b: nat :: b < |a.disk| && b !in hd ==> a.disk[b] == a.logical[b]
    ensures SameHome(lay, a.logical, e.logical) && SameHome(lay, e.disk, e.logical)
  {
    AfterCommitPoint(lay, a, b, c, hd, Values(a.logical, hd));
    LogicalHome(lay, a.logical, c.logical, d.logical, hd);
    assert SameHome(lay, a.logical, e.logical);
    StagesTrace(lay, a, b, c, d, e, hd);
    CommitCompletes(lay, a.disk, hd, Values(a.logical, hd));
    hide Stages, LogCopies, Installed, WriteHead, Committed, Values, Updated, SameHome, CommitDisk;
    CaughtUp(lay, a, e, hd);
  }

  lemma Composed(lay: Layout, a: Store, b: Store, c: Store, d: Store, e: Store, hd: seq<uint32>)
    requires Stages(lay, a, b, c, d, e, hd) && Distinct(hd) && hd != []
    requires forall b: nat :: b < |a.disk| && b !in hd ==> a.disk[b] == a.logical[b]
    ensures Transacted(lay, a, e, hd)
    ensures e.disk == CommitDisk(lay, a.disk, hd, Values(a.logical, hd), 2 * |hd| + 2)
  {
    hide SameHome, CommitDisks, CommitDisk, Values;
    StagesTrace(lay, a, b, c, d, e, hd);
    StagesHome(lay, a, b, c, d, e, hd);
  }

  /** With disk `k` of `e`'s history the machine recovers to the home blocks of `a`, none of which
      has changed yet, if it is among the first `n` after `a`, and otherwise to those of `e`; until then
      each block is one or the other. */
  ghost predicate SafeAt(lay: Layout, a: Store, e: Store, n: nat, k: nat)
    requires k < |e.trace|
  {
    && StaysBetween(lay, e.trace[k], a.disk, e.disk)
    && if k < |a.trace| + n then RecoversTo(lay, e.trace[k], a.disk) && SameHome(lay, e.trace[k], a.disk)
    else RecoversTo(lay, e.trace[k], e.disk)
  }

  /** Every disk on the way from `a` to `e` is safe to stop on. */
  ghost predicate SafeTrace(lay: Layout, a: Store, e: Store, n: nat) {
    a.trace <= e.trace && forall k :: |a.trace| <= k < |e.trace| ==> SafeAt(lay, a, e, n, k)
  }

  lemma NothingTransacted(lay: Layout, a: Store)
    requires Fits(lay, a.disk) && ListOk(lay, a.disk, [])
    requires |a.disk| == |a.logical| && forall b: nat :: b < |a.disk| ==> a.disk[b] == a.logical[b]
    ensures Transacted(lay, a, a, []) && SafeTrace(lay, a, a, 0)
  {
    assert a.disk == a.logical;
  }

  lemma EmptyHeader(lay: Layout, d: Store, e: Store)
    requires Fits(lay, d.disk) && Wrote(d, e, lay.start, PutHead(d.disk[lay.start], [], 0))
    ensures HeaderOk(lay, e.disk) && Word(e.disk[lay.start], 0) == 0 && ListOk(lay, e.disk, [])
  {
  }

  /** Up to the header write, commit changes no home block. */
  lemma HomeUntilHeader(lay: Layout, a: Store, e: Store, hd: seq<uint32>, k: nat)
    requires Transacted(lay, a, e, hd) && hd != [] && |a.trace| <= k < |a.trace| + |hd| <= |e.trace|
    ensures SameHome(lay, e.trace[k], a.disk)
  {
    var vals := Values(a.logical, hd);
    CommitDisksAt(lay, a.disk, hd, vals, k - |a.trace|);
  }

  lemma TransactedSafeAt(lay: Layout, a: Store, e: Store, hd: seq<uint32>, k: nat)
    requires HeaderOk(lay, a.disk) && Word(a.disk[lay.start], 0) == 0 && Distinct(hd) && hd != []
    requires Transacted(lay, a, e, hd) && |a.trace| <= k < |e.trace|
    requires Updated(lay, a.disk, hd, Values(a.logical, hd), e.disk)
    ensures SafeAt(lay, a, e, |hd|, k)
  {
    hide CommitDisk, CommitDisks, Values, Updated, HeaderOk, RecoversTo, SameHome, StaysBetween;
    var vals := Values(a.logical, hd);
    CommitDisksAt(lay, a.disk, hd, vals, k - |a.trace|);
    CommitAllOrNothing(lay, a.disk, hd, vals, k - |a.trace| + 1, e.disk);
    CommitBetween(lay, a.disk, hd, vals, k - |a.trace| + 1, e.disk);
    if k < |a.trace| + |hd| { HomeUntilHeader(lay, a, e, hd, k); }
  }

  /** After a commit the log on disk is empty, and every disk on the way was safe to stop on. */
  lemma TransactedSafe(lay: Layout, a: Store, e: Store, hd: seq<uint32>)
    requires HeaderOk(lay, a.disk) && Word(a.disk[lay.start], 0) == 0 && Distinct(hd) && hd != []
    requires Transacted(lay, a, e, hd)
    requires e.disk == CommitDisk(lay, a.disk, hd, Values(a.logical, hd), 2 * |hd| + 2)
    ensures HeaderOk(lay, e.disk) && Word(e.disk[lay.start], 0) == 0
    ensures SafeTrace(lay, a, e, |hd|)
  {
    CommitCompletes(lay, a.disk, hd, Values(a.logical, hd));
    hide CommitDisk, CommitDisks, Values, Updated, HeaderOk, SafeAt, SameHome;
    forall k | |a.trace| <= k < |e.trace| ensures SafeAt(lay, a, e, |hd|, k) { TransactedSafeAt(lay, a, e, hd, k); }
  }

  lemma RecoveredBy(lay: Layout, a: Store, d: Store, e: Store, hd: seq<uint32>)
    requires HeaderOk(lay, a.disk) && hd == HeadOf(a.disk[lay.start])
    requires Moved(lay, a, d, hd, |hd|) && Wrote(d, e, lay.start, PutHead(d.disk[lay.start], [], 0))
    ensures e.disk == Recovered(lay, a.disk) && e.trace == a.trace + RecoveryDisks(lay, a.disk)
    ensures HeaderOk(lay, e.disk) && Word(e.disk[lay.start], 0) == 0
    ensures forall k :: |a.trace| <= k < |e.trace| ==> CrashedBoot(lay, a.disk, e.trace[k])
  {
    HeaderCleared(lay, d, e);
    forall k | |a.trace| <= k < |e.trace| ensures CrashedBoot(lay, a.disk, e.trace[k]) {
      RecoveryDisksAt(lay, a.disk, k - |a.trace|);
    }
  }

  /** Where the super block says the log is. */
  function LayoutOf(sb: Block): Layout {
    Layout(Word(sb, 4), Word(sb, 3))
  }

  ghost function BlocksOf(hd: seq<uint32>): set<uint32> {
    set b | b in hd
  }

  const NONE: int := -1

  // ---- Room in the cache

  ghost function Assigned(buf: seq<Buf>, n: nat): set<uint32>
    requires n <= NBUF && |buf| == NBUF + 1
  {
    if n == 0 then {} else Assigned(buf, n - 1) + {buf[n - 1].blockno}
  }

  lemma {:induction false} AssignedCount(buf: seq<Buf>, slot: map<uint32, nat>, n: nat)
    requires n <= NBUF && |buf| == NBUF + 1
    requires forall i :: 0 <= i < n ==> buf[i].blockno in slot && slot[buf[i].blockno] == i
    ensures |Assigned(buf, n)| == n
    ensures forall b :: b in Assigned(buf, n) ==> b in slot && 0 <= slot[b] < n && buf[slot[b]].blockno == b
  {
    if n > 0 {
      AssignedCount(buf, slot, n - 1);
    }
  }

  /** Fewer busy blocks than buffers leave bget a buffer to recycle. */
  lemma Room(buf: seq<Buf>, slot: map<uint32, nat>, size: nat, busy: set<uint32>)
    requires Keyed(buf, slot, size) && |busy| < NBUF
    requires forall i :: 0 <= i < NBUF && !buf[i].Evictable() ==> buf[i].blockno in busy
    ensures exists i :: 0 <= i < NBUF && buf[i].Evictable()
  {
    if forall i :: 0 <= i < NBUF ==> !buf[i].Evictable() {
      AssignedCount(buf, slot, NBUF);
      SubsetCount(Assigned(buf, NBUF), busy);
    }
  }

  lemma BlocksOfCount(hd: seq<uint32>)
    ensures |BlocksOf(hd)| <= |hd|
  {
    if hd != [] {
      BlocksOfCount(hd[1..]);
      assert BlocksOf(hd) == {hd[0]} + BlocksOf(hd[1..]);
    } else {
      assert BlocksOf(hd) == {};
    }
  }

  /** Which of the blocks `s` are left when the first `n` listed ones are done. */
  ghost function Left(s: set<uint32>, hd: seq<uint32>, n: nat): set<uint32>
    requires n <= |hd|
  {
    if n == 0 then s else Left(s, hd, n - 1) - {hd[n - 1]}
  }

  lemma {:induction false} LeftIs(s: set<uint32>, hd: seq<uint32>, n: nat)
    requires n <= |hd|
    ensures forall b :: b in Left(s, hd, n) <==> b in s && b !in hd[..n]
  {
    if n > 0 {
      LeftIs(s, hd, n - 1);
      assert hd[..n] == hd[..n - 1] + [hd[n - 1]];
    } else {
      assert hd[..0] == [];
    }
  }

  lemma LeftRoom(s: set<uint32>, hd: seq<uint32>, n: nat)
    requires n < |hd| < NBUF && (s == {} || (s == BlocksOf(hd) && Distinct(hd)))
    ensures Left(s, hd, n) <= BlocksOf(hd)
    ensures (hd[n] in Left(s, hd, n) && |Left(s, hd, n)| < NBUF) || |Left(s, hd, n)| + 1 < NBUF
  {
    LeftIs(s, hd, n);
    BlocksOfCount(hd);
    SubsetCount(Left(s, hd, n), BlocksOf(hd));
    if s == {} { assert Left(s, hd, n) == {}; }
  }

  lemma LeftNone(s: set<uint32>, hd: seq<uint32>)
    requires s <= BlocksOf(hd)
    ensures Left(s, hd, |hd|) == {}
  {
    LeftIs(s, hd, |hd|);
    assert hd[..|hd|] == hd;
  }

  // ---- What keeps the pins

  lemma PinsAfterRead(buf: seq<Buf>, slot: map<uint32, nat>, buf': seq<Buf>, slot': map<uint32, nat>, size: nat,
                      s: set<uint32>, r: nat, b: uint32)
    requires Keyed(buf, slot, size) && Keyed(buf', slot', size) && PinsExactly(buf, slot, size, s)
    requires r < NBUF && buf' == buf[r := buf'[r]] && b in slot' && slot'[b] == r
    requires if b in slot then slot' == slot && buf'[r].dirty == buf[r].dirty
             else buf[r].Evictable() && !buf'[r].dirty && slot' == Reassign(buf, slot, r, b)
    ensures PinsExactly(buf', slot', size, s)
  {
  }

  lemma PinsAfterLogWrite(buf: seq<Buf>, slot: map<uint32, nat>, size: nat, s: set<uint32>, b: nat)
    requires Keyed(buf, slot, size) && PinsExactly(buf, slot, size, s) && b < NBUF && buf[b].dev == ROOTDEV
    requires Keyed(buf[b := buf[b].(dirty := true)], slot, size)
    ensures PinsExactly(buf[b := buf[b].(dirty := true)], slot, size, s + {buf[b].blockno})
  {
  }

  lemma PinsAfterTransfer(buf: seq<Buf>, buf': seq<Buf>, slot: map<uint32, nat>, size: nat, s: set<uint32>, to: nat)
    requires Keyed(buf, slot, size) && Keyed(buf', slot, size) && PinsExactly(buf, slot, size, s)
    requires to < NBUF && buf[to].dev == ROOTDEV
    requires forall i :: 0 <= i < NBUF ==>
      buf'[i].dirty == (i != to && buf[i].dirty) && buf'[i].blockno == buf[i].blockno
    ensures PinsExactly(buf', slot, size, s - {buf[to].blockno})
  {
  }

  /** Two buffers, one of them written, are given back. */
  lemma BothReleased(buf: seq<Buf>, mid: seq<Buf>, buf': seq<Buf>, from: nat, to: nat)
    requires |buf| == |mid| == |buf'| == NBUF + 1 && from < NBUF && to < NBUF && from != to
    requires forall i :: 0 <= i < NBUF ==>
      if i == from || i == to then buf[i].refcnt == 1 && buf[i].locked else buf[i].refcnt == 0 && !buf[i].locked
    requires mid == buf[to := buf[to].(data := buf[from].data, dirty := false)]
    requires forall i :: 0 <= i < NBUF ==>
      buf'[i] == (if (i == from || i == to) && mid[i].refcnt > 0 then mid[i].Drop() else mid[i]).At(buf'[i])
    ensures forall i :: 0 <= i < NBUF ==>
      buf'[i].dirty == (i != to && buf[i].dirty) && buf'[i].blockno == buf[i].blockno
    ensures forall i :: 0 <= i < NBUF ==> buf'[i].refcnt == 0 && !buf'[i].locked
  {
  }

  /** Away from the pinned blocks a quiet cache agrees with the disk. */
  lemma QuietAgrees(buf: seq<Buf>, slot: map<uint32, nat>, disk: seq<Block>, logical: seq<Block>, s: set<uint32>,
                    b: uint32)
    requires Keyed(buf, slot, |disk|) && |logical| == |disk| && Coherent(buf, slot, disk, logical)
    requires Quiet(buf) && PinsExactly(buf, slot, |disk|, s) && b < |disk| && b !in s
    ensures disk[b] == logical[b]
  {
  }

  class Log {
    const bc: Bcache
    var start: uint32
    var size: uint32
    var lh: seq<uint32>        // log.lh.block[0..log.lh.n]
    var outstanding: nat

    ghost function Lay(): Layout
      reads this
    {
      Layout(start, size)
    }

    ghost predicate Pins(s: set<uint32>)
      reads bc
    {
      bc.Valid() && PinsExactly(bc.buf, bc.slot, |bc.disk|, s)
    }

    /** Between transactions: the log on disk is empty, and the cache pins exactly the
        blocks written since the last commit. */
    ghost predicate Valid()
      reads this, bc
    {
      && Pins(BlocksOf(lh)) && HeaderOk(Lay(), bc.disk) && Word(bc.disk[start], 0) == 0
      && ListOk(Lay(), bc.disk, lh) && Distinct(lh) && size <= NBUF
    }

    ghost function Now(): Store
      reads bc
    {
      Store(bc.disk, bc.logical, bc.trace)
    }

    /** The zeroed global before initlog. */
    constructor (cache: Bcache)
      ensures bc == cache && lh == [] && outstanding == 0
    {
      bc, start, size, lh, outstanding := cache, 0, 0, [], 0;
    }

    /** The cache pins the blocks of `s`; buffers `x` and `y` are in use and no others
        (NONE stands for no buffer). */
    ghost predicate Holding(s: set<uint32>, x: int, y: int)
      reads bc
    {
      && Pins(s)
      && forall i :: 0 <= i < NBUF ==>
           if i == x || i == y then bc.buf[i].refcnt == 1 && bc.buf[i].locked && bc.buf[i].valid
           else bc.buf[i].refcnt == 0 && !bc.buf[i].locked
    }

    /** bread, while buffer `x` is in use: it finds a buffer to recycle as long as the
        pinned blocks and that buffer do not fill the cache. */
    method ReadBlock(blockno: uint32, ghost s: set<uint32>, x: int) returns (r: nat)
      requires x < NBUF && Holding(s, x, NONE) && blockno < |bc.disk|
      requires 0 <= x ==> bc.buf[x].blockno != blockno
      requires blockno in s || |s| + (if 0 <= x then 1 else 0) < NBUF
      modifies bc`buf, bc`slot
      ensures r < NBUF && r != x && if 0 <= x then Holding(s, x, r) else Holding(s, r, NONE)
      ensures |bc.buf| == NBUF + 1 && bc.buf[r].blockno == blockno && bc.buf[r].data == bc.logical[blockno]
      ensures bc.buf[r].dirty <==> blockno in s
      ensures !bc.buf[r].dirty ==> bc.disk[blockno] == bc.logical[blockno]
      ensures 0 <= x ==> bc.buf[x] == old(bc.buf[x])
    {
      hide Linked, Coherent;
      if blockno !in bc.slot {
        HeldRoom(s, x);
      }
      Agrees(s, x, blockno);
      var got := bc.Bread(ROOTDEV, blockno);
      r := got.value;
      PinsAfterRead(old(bc.buf), old(bc.slot), bc.buf, bc.slot, |bc.disk|, s, r, blockno);
    }

    lemma Agrees(s: set<uint32>, x: int, b: uint32)
      requires x < NBUF && Holding(s, x, NONE) && b < |bc.disk| && (0 <= x ==> bc.buf[x].blockno != b)
      ensures |bc.logical| == |bc.disk| && (b !in s ==> bc.disk[b] == bc.logical[b])
    {
    }

    lemma HeldRoom(s: set<uint32>, x: int)
      requires x < NBUF && Holding(s, x, NONE) && |s| + (if 0 <= x then 1 else 0) < NBUF
      ensures bc.HasEvictable()
    {
      Room(bc.buf, bc.slot, |bc.disk|, if 0 <= x then s + {bc.buf[x].blockno} else s);
    }

    /** Two breads in a row. */
    method ReadPair(first: uint32, second: uint32, ghost s: set<uint32>) returns (x: nat, y: nat)
      requires Holding(s, NONE, NONE) && first < |bc.disk| && second < |bc.disk| && first != second
      requires (second in s && |s| < NBUF) || |s| + 1 < NBUF
      modifies bc`buf, bc`slot
      ensures x < NBUF && y < NBUF && x != y && Holding(s, x, y)
      ensures bc.buf[x].blockno == first && bc.buf[x].data == bc.logical[first]
      ensures bc.buf[y].blockno == second && bc.buf[y].data == bc.logical[second]
      ensures !bc.buf[x].dirty ==> bc.disk[first] == bc.logical[first]
      ensures !bc.buf[y].dirty ==> bc.disk[second] == bc.logical[second]
    {
      hide Linked, Keyed, Coherent, PinsExactly;
      x := ReadBlock(first, s, NONE);
      y := ReadBlock(second, s, x);
    }

    /** memmove from one held buffer to another, then bwrite the second. */
    method CopyThrough(from: nat, to: nat)
      requires bc.Valid() && from < NBUF && to < NBUF && from != to
      requires bc.buf[to].locked && bc.buf[to].valid
      modifies bc`buf, bc`disk, bc`logical, bc`trace
      ensures bc.Valid()
      ensures bc.buf == old(bc.buf)[to := old(bc.buf[to]).(data := old(bc.buf[from].data), dirty := false)]
      ensures bc.disk == old(bc.disk)[bc.buf[to].blockno := bc.buf[from].data]
      ensures bc.logical == old(bc.logical)[bc.buf[to].blockno := bc.buf[from].data]
      ensures bc.trace == old(bc.trace) + [bc.disk]
    {
      hide Linked, Coherent;
      StoreWrite(to, bc.buf[from].data);
    }

    /** Fill a held buffer and bwrite it. */
    method StoreWrite(b: nat, data: Block)
      requires bc.Valid() && b < NBUF && bc.buf[b].locked && bc.buf[b].valid
      modifies bc`buf, bc`disk, bc`logical, bc`trace
      ensures bc.Valid()
      ensures bc.buf == old(bc.buf)[b := old(bc.buf[b]).(data := data, dirty := false)]
      ensures bc.disk == old(bc.disk)[bc.buf[b].blockno := data]
      ensures bc.logical == old(bc.logical)[bc.buf[b].blockno := data]
      ensures bc.trace == old(bc.trace) + [bc.disk]
    {
      hide Linked, Coherent;
      bc.Store(b, data);
      bc.Bwrite(b);
    }

    method ReleaseBoth(from: nat, to: nat)
      requires bc.Valid() && from < NBUF && to < NBUF && from != to
      requires bc.buf[from].locked && bc.buf[from].valid && bc.buf[from].refcnt == 1
      requires bc.buf[to].locked && bc.buf[to].valid && bc.buf[to].refcnt == 1
      requires !bc.buf[from].dirty ==> bc.disk[bc.buf[from].blockno] == bc.buf[from].data
      requires !bc.buf[to].dirty ==> bc.disk[bc.buf[to].blockno] == bc.buf[to].data
      modifies bc`buf, bc`ring
      ensures bc.Valid()
      ensures forall i :: 0 <= i < NBUF ==>
        bc.buf[i] == (if i == from || i == to then old(bc.buf[i]).Drop() else old(bc.buf[i])).At(bc.buf[i])
    {
      hide Linked, Keyed, Coherent;
      bc.Brelse(from);
      bc.Brelse(to);
    }

    /** The common tail of the loops in write_log and install_trans: memmove between two
        held buffers, bwrite the second, release both. */
    method Transfer(from: nat, to: nat, ghost s: set<uint32>)
      requires from < NBUF && to < NBUF && from != to && (Holding(s, to, from) || Holding(s, from, to))
      requires !bc.buf[from].dirty ==> bc.disk[bc.buf[from].blockno] == bc.buf[from].data
      modifies bc
      ensures Holding(s - {old(bc.buf[to].blockno)}, NONE, NONE)
      ensures Wrote(old(Now()), Now(), old(bc.buf[to].blockno), old(bc.buf[from].data))
    {
      hide Linked, Coherent, PinsExactly;
      ghost var buf := bc.buf;
      CopyThrough(from, to);
      ghost var mid := bc.buf;
      ReleaseBoth(from, to);
      BothReleased(buf, mid, bc.buf, from, to);
      PinsAfterTransfer(buf, bc.buf, bc.slot, |bc.disk|, s, to);
    }

    /** One iteration of write_log. */
    method WriteLogStep(tail: nat)
      requires Holding(BlocksOf(lh), NONE, NONE) && Fits(Lay(), bc.disk)
      requires ListOk(Lay(), bc.disk, lh) && tail < |lh| < NBUF
      modifies bc
      ensures Holding(BlocksOf(lh), NONE, NONE)
      ensures Wrote(old(Now()), Now(), start + tail + 1, old(bc.logical[lh[tail]]))
    {
      hide Linked, Keyed, Coherent, PinsExactly;
      ghost var s := BlocksOf(lh);
      BlocksOfCount(lh);
      var to, from := ReadPair(start + tail + 1, lh[tail], s);
      Transfer(from, to, s);
      assert s - {start + tail + 1} == s;
    }

    /** One iteration of install_trans; `s` are the blocks still pinned. */
    method InstallStep(tail: nat, ghost s: set<uint32>)
      requires Holding(s, NONE, NONE) && Fits(Lay(), bc.disk) && ListOk(Lay(), bc.disk, lh) && tail < |lh|
      requires start + tail + 1 !in s
      requires (lh[tail] in s && |s| < NBUF) || |s| + 1 < NBUF
      modifies bc
      ensures Holding(s - {lh[tail]}, NONE, NONE)
      ensures Wrote(old(Now()), Now(), lh[tail], old(bc.logical[start + tail + 1]))
    {
      hide Linked, Keyed, Coherent, PinsExactly;
      var lbuf, dbuf := ReadPair(start + tail + 1, lh[tail], s);
      Transfer(lbuf, dbuf, s);
    }

    lemma SlotAgrees(s: set<uint32>, tail: nat)
      requires Holding(s, NONE, NONE) && Fits(Lay(), bc.disk) && ListOk(Lay(), bc.disk, lh) && tail < |lh|
      requires s <= BlocksOf(lh)
      ensures start + tail + 1 !in s
      ensures bc.disk[start + tail + 1] == bc.logical[start + tail + 1]
    {
      QuietAgrees(bc.buf, bc.slot, bc.disk, bc.logical, s, start + tail + 1);
    }

    /** write_log: the pinned blocks are copied, one disk write each, into the log area. */
    method WriteLog(ghost vals: seq<Block>)
      requires Holding(BlocksOf(lh), NONE, NONE) && Fits(Lay(), bc.disk) && ListOk(Lay(), bc.disk, lh) && |lh| < NBUF
      requires |vals| == |lh| && forall i :: 0 <= i < |lh| ==> vals[i] == bc.logical[lh[i]]
      modifies bc
      ensures Holding(BlocksOf(lh), NONE, NONE)
      ensures Copied(Lay(), old(Now()), Now(), vals, |lh|)
    {
      hide Linked, Keyed, Coherent, PinsExactly, Copied, Wrote;
      var tail := 0;
      CopiedNone(Lay(), Now(), vals);
      while tail < |lh|
        invariant 0 <= tail <= |lh|
        invariant Holding(BlocksOf(lh), NONE, NONE)
        invariant Copied(Lay(), old(Now()), Now(), vals, tail)
      {
        ghost var mid := Now();
        CopiedLeaves(Lay(), old(Now()), mid, vals, tail, lh);
        WriteLogStep(tail);
        CopiedOne(Lay(), old(Now()), mid, Now(), vals, tail);
        tail := tail + 1;
      }
    }

    /** install_trans: the log copies are written, one disk write each, to their homes. The
        cache then pins what it pinned before, except for the installed blocks. */
    method InstallTrans(ghost s: set<uint32>)
      requires Holding(s, NONE, NONE) && Fits(Lay(), bc.disk) && ListOk(Lay(), bc.disk, lh) && |lh| < NBUF
      requires s == {} || (s == BlocksOf(lh) && Distinct(lh))
      modifies bc
      ensures Holding({}, NONE, NONE)
      ensures Moved(Lay(), old(Now()), Now(), lh, |lh|)
    {
      hide Linked, Keyed, Coherent, PinsExactly, Moved, Wrote;
      var tail := 0;
      MovedNone(Lay(), Now(), lh);
      while tail < |lh|
        invariant 0 <= tail <= |lh|
        invariant Holding(Left(s, lh, tail), NONE, NONE)
        invariant Moved(Lay(), old(Now()), Now(), lh, tail)
      {
        ghost var mid := Now();
        MovedLeaves(Lay(), old(Now()), mid, lh, tail);
        LeftRoom(s, lh, tail);
        SlotAgrees(Left(s, lh, tail), tail);
        InstallStep(tail, Left(s, lh, tail));
        MovedOne(Lay(), old(Now()), mid, Now(), lh, tail);
        tail := tail + 1;
      }
      LeftNone(s, lh);
    }

    /** Fill a held clean buffer, bwrite and release it. */
    method WriteBack(b: nat, data: Block, ghost s: set<uint32>)
      requires b < NBUF && Holding(s, b, NONE) && bc.buf[b].blockno !in s
      modifies bc
      ensures Holding(s, NONE, NONE)
      ensures Wrote(old(Now()), Now(), old(bc.buf[b].blockno), data)
    {
      hide Linked, Coherent;
      StoreWrite(b, data);
      bc.Brelse(b);
      PinsAfterTransfer(old(bc.buf), bc.buf, bc.slot, |bc.disk|, s, b);
      assert s - {old(bc.buf[b].blockno)} == s;
    }

    /** write_head: one disk write that stores the block list in the header block. */
    method WriteHeader(ghost s: set<uint32>)
      requires Holding(s, NONE, NONE) && Fits(Lay(), bc.disk) && |lh| <= LOGSIZE && |s| < NBUF && start !in s
      modifies bc
      ensures Holding(s, NONE, NONE)
      ensures old(bc.disk[start] == bc.logical[start])
      ensures Wrote(old(Now()), Now(), start, PutHead(old(bc.disk[start]), lh, |lh|))
    {
      hide Linked, Keyed, Coherent, PinsExactly, Wrote;
      var buf := ReadBlock(start, s, NONE);
      var hb := SetWord(bc.buf[buf].data, 0, |lh|);
      var i := 0;
      while i < |lh|
        invariant 0 <= i <= |lh| && hb == PutHead(bc.buf[buf].data, lh, i)
      {
        hb := SetWord(hb, 1 + i, lh[i]);
        i := i + 1;
      }
      WriteBack(buf, hb, s);
    }

    /** The first half of commit: the copies, and the header write that commits them. */
    method LogBlocks() returns (ghost b: Store)
      requires Valid() && Holding(BlocksOf(lh), NONE, NONE)
      modifies bc
      ensures Holding(BlocksOf(lh), NONE, NONE) && Fits(Lay(), bc.disk) && ListOk(Lay(), bc.disk, lh)
      ensures Copied(Lay(), old(Now()), b, Values(old(bc.logical), lh), |lh|)
      ensures Fits(Lay(), b.disk) && Wrote(b, Now(), start, PutHead(b.disk[start], lh, |lh|))
    {
      hide Linked, Keyed, Coherent, PinsExactly, Copied, Wrote;
      ghost var a := Now();
      BlocksOfCount(lh);
      WriteLog(Values(bc.logical, lh));
      b := Now();
      CopiedLeaves(Lay(), a, b, Values(a.logical, lh), |lh|, lh);
      assert InLog(Lay(), start);
      WriteHeader(BlocksOf(lh));
      AfterCommitPoint(Lay(), a, b, Now(), lh, Values(a.logical, lh));
    }

    /** The second half: the installs, and the header write that empties the log. */
    method InstallBlocks(ghost s: set<uint32>) returns (ghost d: Store)
      requires Holding(s, NONE, NONE) && Fits(Lay(), bc.disk) && ListOk(Lay(), bc.disk, lh) && |lh| < NBUF
      requires s == {} || (s == BlocksOf(lh) && Distinct(lh))
      modifies this`lh, bc
      ensures lh == [] && Holding({}, NONE, NONE)
      ensures Moved(Lay(), old(Now()), d, old(lh), |old(lh)|)
      ensures Fits(Lay(), d.disk) && Wrote(d, Now(), start, PutHead(d.disk[start], [], 0))
    {
      hide Linked, Keyed, Coherent, PinsExactly, Moved, Wrote;
      InstallTrans(s);
      d := Now();
      MovedLeaves(Lay(), old(Now()), d, lh, |lh|);
      lh := [];
      WriteHeader({});
    }

    /** commit: every pinned block reaches its home, and the disk passes through exactly the
        states of `CommitDisk`, so that a stop at any point loses all or nothing. */
    method Commit()
      requires Valid() && Holding(BlocksOf(lh), NONE, NONE)
      modifies this`lh, bc
      ensures Valid() && lh == [] && Holding({}, NONE, NONE)
      ensures Transacted(Lay(), old(Now()), Now(), old(lh))
      ensures SafeTrace(Lay(), old(Now()), Now(), |old(lh)|)
    {
      hide Linked, Keyed, Coherent, PinsExactly, Transacted, SafeTrace;
      if |lh| > 0 {
        CommitListed();
      } else {
        assert BlocksOf(lh) == {};
        OthersAgree();
        Lengths();
        NothingTransacted(Lay(), Now());
      }
    }

    /** The same for a list that is not empty. */
    method CommitListed()
      requires Valid() && Holding(BlocksOf(lh), NONE, NONE) && lh != []
      modifies this`lh, bc
      ensures Valid() && lh == [] && Holding({}, NONE, NONE)
      ensures Transacted(Lay(), old(Now()), Now(), old(lh))
      ensures SafeTrace(Lay(), old(Now()), Now(), |old(lh)|)
    {
      hide Linked, Keyed, Coherent, PinsExactly, Transacted, SafeTrace;
      ghost var a, hd := Now(), lh;
      OthersAgree();
      ghost var b := LogBlocks();
      ghost var c := Now();
      ghost var d := InstallBlocks(BlocksOf(lh));
      assert Stages(Lay(), a, b, c, d, Now(), hd);
      Composed(Lay(), a, b, c, d, Now(), hd);
      TransactedSafe(Lay(), a, Now(), hd);
      assert BlocksOf(lh) == {};
      EmptyHeader(Lay(), d, Now());
    }

    /** Between transactions every block that is not pinned is on disk. */
    lemma OthersAgree()
      requires Valid() && Holding(BlocksOf(lh), NONE, NONE)
      ensures forall b: nat :: b < |bc.disk| && b !in lh ==> bc.disk[b] == bc.logical[b]
    {
      forall b: nat | b < |bc.disk| && b !in lh ensures bc.disk[b] == bc.logical[b] {
        QuietAgrees(bc.buf, bc.slot, bc.disk, bc.logical, BlocksOf(lh), b);
      }
    }

    /** brelse of a buffer that was only read. */
    method Release(b: nat, ghost s: set<uint32>)
      requires b < NBUF && Holding(s, b, NONE)
      requires !bc.buf[b].dirty ==> bc.disk[bc.buf[b].blockno] == bc.buf[b].data
      modifies bc`buf, bc`ring
      ensures Holding(s, NONE, NONE)
    {
      hide Linked, Coherent;
      bc.Brelse(b);
    }

    /** read_head: the block list comes from the header block on disk. */
    method ReadHead()
      requires Holding({}, NONE, NONE) && HeaderOk(Lay(), bc.disk)
      modifies this`lh, bc`buf, bc`slot, bc`ring
      ensures Holding({}, NONE, NONE)
      ensures lh == HeadOf(bc.disk[start])
    {
      hide Linked, Keyed, Coherent, PinsExactly;
      var buf := ReadBlock(start, {}, NONE);
      var h := bc.buf[buf].data;
      var n := Word(h, 0);
      var block: seq<uint32> := [];
      while |block| < n
        invariant |block| <= n && block == Entries(h, |block|)
      {
        block := block + [Word(h, 1 + |block|)];
      }
      lh := block;
      Release(buf, {});
    }

    /** recover_from_log: the disk passes through exactly the states of `RecoveryDisk`, ends
        as `Recovered` says, and the log is empty. */
    method RecoverFromLog()
      requires Holding({}, NONE, NONE) && HeaderOk(Lay(), bc.disk) && size <= NBUF
      modifies this`lh, bc
      ensures Valid() && lh == [] && Holding({}, NONE, NONE)
      ensures bc.disk == Recovered(Lay(), old(bc.disk)) == bc.logical
      ensures bc.trace == old(bc.trace) + RecoveryDisks(Lay(), old(bc.disk))
      ensures forall k :: |old(bc.trace)| <= k < |bc.trace| ==> CrashedBoot(Lay(), old(bc.disk), bc.trace[k])
    {
      ghost var a := Now();
      ReadHead();
      ghost var hd := lh;
      ghost var d := InstallBlocks({});
      RecoveredBy(Lay(), a, d, Now(), hd);
      assert BlocksOf(lh) == {};
      OthersAgree();
    }

    /** readsb */
    method Readsb() returns (sb: Block)
      requires Holding({}, NONE, NONE) && 1 < |bc.disk|
      modifies bc`buf, bc`slot, bc`ring
      ensures Holding({}, NONE, NONE) && sb == bc.logical[1]
    {
      var bp := ReadBlock(1, {}, NONE);
      sb := bc.buf[bp].data;
      Release(bp, {});
    }

    /** initlog: take the log's place and size from the super block, then recover. */
    method Initlog()
      requires Holding({}, NONE, NONE) && 1 < |bc.disk|
      requires HeaderOk(LayoutOf(bc.logical[1]), bc.disk) && LayoutOf(bc.logical[1]).size <= NBUF
      modifies this`start, this`size, this`lh, bc
      ensures Lay() == LayoutOf(old(bc.logical[1]))
      ensures Valid() && lh == [] && Holding({}, NONE, NONE)
      ensures bc.disk == Recovered(Lay(), old(bc.disk)) == bc.logical
      ensures forall k :: |old(bc.trace)| <= k < |bc.trace| ==> CrashedBoot(Lay(), old(bc.disk), bc.trace[k])
    {
      var sb := Readsb();
      start, size := Word(sb, 4), Word(sb, 3);
      RecoverFromLog();
    }

    /** The absorption loop of log_write. */
    method FindListed(blockno: uint32) returns (i: nat)
      ensures i <= |lh| && (i < |lh| <==> blockno in lh) && (i < |lh| ==> lh[i] == blockno)
    {
      i := 0;
      while i < |lh|
        invariant i <= |lh| && blockno !in lh[..i]
      {
        if lh[i] == blockno {
          break;
        }
        i := i + 1;
      }
    }

    /** log_write: list the block once per transaction and pin its buffer. The disk is not
        touched. False means that the kernel panics. */
    method LogWrite(b: nat) returns (ok: bool)
      requires Valid() && b < NBUF && bc.buf[b].locked && bc.buf[b].valid && !InLog(Lay(), bc.buf[b].blockno)
      modifies this`lh, bc`buf
      ensures ok <==> old(|lh|) < LOGSIZE && old(|lh|) < size - 1 && outstanding >= 1
      ensures !ok ==> lh == old(lh) && bc.buf == old(bc.buf)
      ensures ok ==> Valid() && bc.buf == old(bc.buf)[b := old(bc.buf[b]).(dirty := true)]
      ensures ok ==> lh == if bc.buf[b].blockno in old(lh) then old(lh) else old(lh) + [bc.buf[b].blockno]
    {
      hide Linked, Coherent;
      if |lh| >= LOGSIZE || |lh| >= size - 1 {
        return false;
      }
      if outstanding < 1 {
        return false;
      }
      var i := FindListed(bc.buf[b].blockno);
      if i == |lh| {
        lh := lh + [bc.buf[b].blockno];
      }
      bc.Pin(b);
      PinsAfterLogWrite(old(bc.buf), bc.slot, |bc.disk|, BlocksOf(old(lh)), b);
      assert BlocksOf(lh) == BlocksOf(old(lh)) + {bc.buf[b].blockno};
      ok := true;
    }

    /** bread, use, brelse. */
    method Look(b: uint32) returns (data: Block)
      requires Valid() && Holding(BlocksOf(lh), NONE, NONE) && b < |bc.disk|
      modifies bc`buf, bc`slot, bc`ring
      ensures Valid() && Holding(BlocksOf(lh), NONE, NONE) && data == bc.logical[b]
    {
      hide Linked, Keyed, Coherent, PinsExactly;
      BlocksOfCount(lh);
      var buf := ReadBlock(b, BlocksOf(lh), NONE);
      data := bc.buf[buf].data;
      Release(buf, BlocksOf(lh));
    }

    /** Change the contents of a held buffer. */
    method StoreHeld(b: nat, data: Block, ghost s: set<uint32>)
      requires b < NBUF && Holding(s, b, NONE)
      modifies bc`buf, bc`logical
      ensures Holding(s, b, NONE)
      ensures bc.buf == old(bc.buf)[b := old(bc.buf[b]).(data := data)]
      ensures bc.logical == old(bc.logical)[bc.buf[b].blockno := data]
    {
      hide Linked, Coherent;
      bc.Store(b, data);
    }

    /** log_write of a held buffer, which stays held. */
    method LogHeld(b: nat) returns (ok: bool)
      requires Valid() && b < NBUF && Holding(BlocksOf(lh), b, NONE) && !InLog(Lay(), bc.buf[b].blockno)
      modifies this`lh, bc`buf
      ensures ok <==> old(|lh|) < LOGSIZE && old(|lh|) < size - 1 && outstanding >= 1
      ensures ok ==> Valid() && Holding(BlocksOf(lh), b, NONE) && bc.buf[b].dirty
      ensures ok ==> lh == if old(bc.buf[b].blockno) in old(lh) then old(lh) else old(lh) + [old(bc.buf[b].blockno)]
    {
      hide Linked, Coherent, PinsExactly, HeaderOk, ListOk, BlocksOf;
      ok := LogWrite(b);
    }

    /** bread, change the contents, log_write, brelse: the block map changes, the disk does not.
        False means that the kernel panics in log_write. */
    method Put(b: uint32, data: Block) returns (ok: bool)
      requires Valid() && Holding(BlocksOf(lh), NONE, NONE) && b < |bc.disk| && !InLog(Lay(), b)
      modifies this`lh, bc`buf, bc`slot, bc`ring, bc`logical
      ensures ok <==> old(|lh|) < LOGSIZE && old(|lh|) < size - 1 && outstanding >= 1
      ensures ok ==> Valid() && Holding(BlocksOf(lh), NONE, NONE) && bc.logical == old(bc.logical)[b := data]
      ensures ok ==> lh == if b in old(lh) then old(lh) else old(lh) + [b]
    {
      hide Linked, Keyed, Coherent, PinsExactly;
      BlocksOfCount(lh);
      var buf := ReadBlock(b, BlocksOf(lh), NONE);
      StoreHeld(buf, data, BlocksOf(lh));
      ok := LogHeld(buf);
      if ok { Release(buf, BlocksOf(lh)); }
    }

    /** How many blocks log_write lists before it panics. */
    ghost function Limit(): int
      reads this
    {
      if LOGSIZE < size - 1 then LOGSIZE else size - 1
    }

    /** Any sequence of such accesses: each Look sees the last value put, and the disk is not
        written at all. */
    method Perform(ops: seq<Access>) returns (ok: bool, seen: seq<Block>)
      requires Valid() && Holding(BlocksOf(lh), NONE, NONE) && outstanding >= 1
      requires forall i :: 0 <= i < |ops| ==> AccessOk(Lay(), |bc.disk|, ops[i])
      modifies this`lh, bc`buf, bc`slot, bc`ring, bc`logical
      ensures ok <==> HasRoom(Limit(), old(lh), ops)
      ensures ok ==> Valid() && Holding(BlocksOf(lh), NONE, NONE) && lh == Listed(old(lh), ops)
      ensures ok ==> bc.logical == After(old(bc.logical), ops) && seen == Views(old(bc.logical), ops)
    {
      hide Valid, Holding, After, Views, Listed, HasRoom;
      seen := [];
      var i := 0;
      NoAccess(bc.logical, lh, ops, Limit());
      while i < |ops|
        invariant 0 <= i <= |ops| && Valid() && Holding(BlocksOf(lh), NONE, NONE)
        invariant HasRoom(Limit(), old(lh), ops[..i]) && lh == Listed(old(lh), ops[..i])
        invariant bc.logical == After(old(bc.logical), ops[..i]) && seen == Views(old(bc.logical), ops[..i])
      {
        NextAccess(old(bc.logical), old(lh), ops, i);
        RoomStep(Limit(), old(lh), ops, i);
        assert AccessOk(Lay(), |bc.disk|, ops[i]);
        Lengths();
        if ops[i].Look? {
          var data := Look(ops[i].b);
          seen := seen + [data];
        } else {
          ok := Put(ops[i].b, ops[i].data);
          if !ok { return; }
        }
        i := i + 1;
      }
      assert ops[..|ops|] == ops;
      ok := true;
    }

    lemma Lengths()
      requires Valid()
      ensures |bc.logical| == |bc.disk|
    {
    }

    /** begin_op, the accesses, end_op with its commit, by one process alone. Until write `n`, the
        header write, no home block on disk changes and a crash recovers to the old ones; from
        it on a crash recovers to the new ones, which the disk has in the end. */
    method Transaction(ops: seq<Access>) returns (ok: bool, seen: seq<Block>, ghost n: nat)
      requires Valid() && Holding({}, NONE, NONE) && lh == []
      requires forall i :: 0 <= i < |ops| ==> AccessOk(Lay(), |bc.disk|, ops[i])
      modifies this`lh, this`outstanding, bc
      ensures ok <==> HasRoom(Limit(), [], ops)
      ensures ok ==> Valid() && lh == [] && Holding({}, NONE, NONE) && seen == Views(old(bc.logical), ops)
      ensures ok ==> SameHome(Lay(), After(old(bc.logical), ops), bc.logical) && SameHome(Lay(), bc.disk, bc.logical)
      ensures ok ==> SafeTrace(Lay(), old(Now()), Now(), n)
    {
      hide Linked, Keyed, Coherent, PinsExactly, HeaderOk, ListOk, SafeTrace, SameHome, After, Views, HasRoom, Listed;
      n := 0;
      outstanding := 1;
      assert BlocksOf(lh) == {};
      ok, seen := Perform(ops);
      outstanding := 0;
      if ok {
        n := |lh|;
        ghost var a := Now();
        Commit();
        SameTrace(Lay(), old(Now()), a, Now(), n);
      }
    }
  }

  /** A machine just switched on: an empty cache over the disk, and a log that knows nothing yet. */
  method PowerUp(image: seq<Block>) returns (log: Log)
    requires |image| < 0x1_0000_0000
    ensures fresh(log) && fresh(log.bc) && log.Holding({}, NONE, NONE)
    ensures log.bc.disk == image && log.bc.logical == image
  {
    hide Linked, Keyed, Coherent;
    var bc := new Bcache(image);
    log := new Log(bc);
  }

  lemma SameTrace(lay: Layout, a: Store, b: Store, e: Store, n: nat)
    requires SafeTrace(lay, b, e, n) && b.disk == a.disk && b.trace == a.trace
    ensures SafeTrace(lay, a, e, n)
  {
    forall k | |a.trace| <= k < |e.trace| ensures SafeAt(lay, a, e, n, k) { assert SafeAt(lay, b, e, n, k); }
  }
}
