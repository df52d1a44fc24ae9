/** The on-disk redo log as a sequence of single-block disk writes.

    A crash may fall between any two writes, so commit and recovery are described by
    the list of every disk they pass through. What survives a crash is the disk alone. */
module LogSpec {
  import opened Blocks
  import opened Collections

  const MAXOPBLOCKS: nat := 10
  const LOGSIZE: nat := 30

  type Disk = seq<Block>

  /** log.start and log.size: block `start` is the header, `start+1..start+size` the copies. */
  datatype Layout = Layout(start: nat, size: nat)

  predicate InLog(lay: Layout, b: int) {
    lay.start <= b < lay.start + lay.size
  }

  predicate Fits(lay: Layout, d: Disk) {
    1 <= lay.size && lay.start + lay.size <= |d|
  }

  /** A block list that the log can carry: it fits, and names no block of the log itself. */
  predicate ListOk(lay: Layout, d: Disk, hd: seq<uint32>) {
    && |hd| <= LOGSIZE
    && |hd| < lay.size
    && forall i :: 0 <= i < |hd| ==> hd[i] < |d| && !InLog(lay, hd[i])
  }

  /** struct logheader in a block: the count in word 0, block numbers from word 1. */
  function Entries(b: Block, n: nat): (hd: seq<uint32>)
    requires n <= LOGSIZE
    ensures |hd| == n
  {
    if n == 0 then [] else Entries(b, n - 1) + [Word(b, n)]
  }

  function HeadOf(b: Block): (hd: seq<uint32>)
    requires Word(b, 0) <= LOGSIZE
    ensures |hd| == Word(b, 0)
  {
    Entries(b, Word(b, 0))
  }

  predicate HeaderOk(lay: Layout, d: Disk) {
    && Fits(lay, d)
    && Word(d[lay.start], 0) <= LOGSIZE
    && ListOk(lay, d, HeadOf(d[lay.start]))
  }

  /** The header block after `k` entries of `hd` were copied into it: only the count and
      those entries are stored, later words keep what they held. */
  function PutHead(b: Block, hd: seq<uint32>, k: nat): (r: Block)
    requires k <= |hd| <= LOGSIZE
  {
    if k == 0 then SetWord(b, 0, |hd|) else SetWord(PutHead(b, hd, k - 1), k, hd[k - 1])
  }

  lemma {:induction false} PutHeadEntries(b: Block, hd: seq<uint32>, k: nat)
    requires k <= |hd| <= LOGSIZE
    ensures Word(PutHead(b, hd, k), 0) == |hd|
    ensures Entries(PutHead(b, hd, k), k) == hd[..k]
  {
    if k > 0 {
      PutHeadEntries(b, hd, k - 1);
      SameEntries(PutHead(b, hd, k - 1), PutHead(b, hd, k), k - 1);
    }
  }

  lemma {:induction false} SameEntries(b: Block, c: Block, n: nat)
    requires n <= LOGSIZE
    requires forall i :: 1 <= i <= n ==> Word(b, i) == Word(c, i)
    ensures Entries(b, n) == Entries(c, n)
  {
    if n > 0 { SameEntries(b, c, n - 1); }
  }

  /** The header reads back as the list that was written, whatever the block held before. */
  lemma PutHeadReadsBack(b: Block, hd: seq<uint32>)
    requires |hd| <= LOGSIZE
    ensures Word(PutHead(b, hd, |hd|), 0) == |hd|
    ensures HeadOf(PutHead(b, hd, |hd|)) == hd
  {
    PutHeadEntries(b, hd, |hd|);
    assert hd[..|hd|] == hd;
  }

  function WriteHead(lay: Layout, d: Disk, hd: seq<uint32>): (r: Disk)
    requires Fits(lay, d) && |hd| <= LOGSIZE
    ensures |r| == |d|
    ensures Word(r[lay.start], 0) == |hd| && HeadOf(r[lay.start]) == hd
    ensures forall b :: 0 <= b < |d| && b != lay.start ==> r[b] == d[b]
  {
    PutHeadReadsBack(d[lay.start], hd);
    d[lay.start := PutHead(d[lay.start], hd, |hd|)]
  }

  /** The log area holds the copies `vals`. */
  predicate HasCopies(lay: Layout, d: Disk, vals: seq<Block>) {
    |vals| < lay.size && Fits(lay, d) && forall i :: 0 <= i < |vals| ==> d[lay.start + 1 + i] == vals[i]
  }

  /** The disk after the first `k` iterations of write_log, copying `vals` into the log. */
  function LogCopies(lay: Layout, d: Disk, vals: seq<Block>, k: nat): (r: Disk)
    requires Fits(lay, d) && k <= |vals| < lay.size
    ensures |r| == |d|
    ensures HasCopies(lay, r, vals[..k])
    ensures forall b :: 0 <= b < |d| && !(lay.start < b <= lay.start + k) ==> r[b] == d[b]
  {
    if k == 0 then d else LogCopies(lay, d, vals, k - 1)[lay.start + k := vals[k - 1]]
  }

  /** The disk after the first `k` iterations of install_trans. */
  function Installed(lay: Layout, d: Disk, hd: seq<uint32>, k: nat): (r: Disk)
    requires Fits(lay, d) && ListOk(lay, d, hd) && k <= |hd|
    ensures |r| == |d|
    ensures forall b :: 0 <= b < |d| && InLog(lay, b) ==> r[b] == d[b]
  {
    if k == 0 then d
    else var p := Installed(lay, d, hd, k - 1); p[hd[k - 1] := p[lay.start + k]]
  }

  /** The disk after the first `k` writes of recover_from_log: installs, then the header. */
  function RecoveryDisk(lay: Layout, d: Disk, k: nat): (r: Disk)
    requires HeaderOk(lay, d) && k <= |HeadOf(d[lay.start])| + 1
    ensures |r| == |d|
  {
    var hd := HeadOf(d[lay.start]);
    if k <= |hd| then Installed(lay, d, hd, k) else Recovered(lay, d)
  }

  function Recovered(lay: Layout, d: Disk): (r: Disk)
    requires HeaderOk(lay, d)
    ensures |r| == |d|
  {
    var hd := HeadOf(d[lay.start]);
    WriteHead(lay, Installed(lay, d, hd, |hd|), [])
  }

  /** The disk just after the header write that commits. */
  function Committed(lay: Layout, d: Disk, hd: seq<uint32>, vals: seq<Block>): (r: Disk)
    requires Fits(lay, d) && ListOk(lay, d, hd) && |vals| == |hd|
    ensures SameHome(lay, r, d)
    ensures HeaderOk(lay, r) && HeadOf(r[lay.start]) == hd
    ensures HasCopies(lay, r, vals)
  {
    assert vals[..|hd|] == vals;
    WriteHead(lay, LogCopies(lay, d, vals, |hd|), hd)
  }

  /** The disk after the first `k` writes of commit: log copies, header, installs, cleared
      header. */
  function CommitDisk(lay: Layout, d: Disk, hd: seq<uint32>, vals: seq<Block>, k: nat): (r: Disk)
    requires Fits(lay, d) && ListOk(lay, d, hd) && |vals| == |hd| && k <= 2 * |hd| + 2
  {
    if k <= |hd| then LogCopies(lay, d, vals, k)
    else if k <= 2 * |hd| + 1 then Installed(lay, Committed(lay, d, hd, vals), hd, k - |hd| - 1)
    else WriteHead(lay, Installed(lay, Committed(lay, d, hd, vals), hd, |hd|), [])
  }

  /** The disks that the first `n` iterations of write_log leave, in order. */
  function CopyDisks(lay: Layout, d: Disk, vals: seq<Block>, n: nat): (r: seq<Disk>)
    requires Fits(lay, d) && n <= |vals| < lay.size
    ensures |r| == n
  {
    if n == 0 then [] else CopyDisks(lay, d, vals, n - 1) + [LogCopies(lay, d, vals, n)]
  }

  /** The disks that the first `n` iterations of install_trans leave, in order. */
  function InstallDisks(lay: Layout, d: Disk, hd: seq<uint32>, n: nat): (r: seq<Disk>)
    requires Fits(lay, d) && ListOk(lay, d, hd) && n <= |hd|
    ensures |r| == n
  {
    if n == 0 then [] else InstallDisks(lay, d, hd, n - 1) + [Installed(lay, d, hd, n)]
  }

  /** Every disk that commit leaves behind, write by write. */
  function CommitDisks(lay: Layout, d: Disk, hd: seq<uint32>, vals: seq<Block>): (r: seq<Disk>)
    requires Fits(lay, d) && ListOk(lay, d, hd) && |vals| == |hd|
    ensures |r| == 2 * |hd| + 2
  {
    var c := Committed(lay, d, hd, vals);
    CopyDisks(lay, d, vals, |hd|) + [c] + InstallDisks(lay, c, hd, |hd|)
    + [WriteHead(lay, Installed(lay, c, hd, |hd|), [])]
  }

  /** Every disk that recovery leaves behind, write by write. */
  function RecoveryDisks(lay: Layout, d: Disk): (r: seq<Disk>)
    requires HeaderOk(lay, d)
    ensures |r| == |HeadOf(d[lay.start])| + 1
  {
    var hd := HeadOf(d[lay.start]);
    InstallDisks(lay, d, hd, |hd|) + [Recovered(lay, d)]
  }

  lemma {:induction false} CopyDisksAt(lay: Layout, d: Disk, vals: seq<Block>, n: nat, k: nat)
    requires Fits(lay, d) && k < n <= |vals| < lay.size
    ensures CopyDisks(lay, d, vals, n)[k] == LogCopies(lay, d, vals, k + 1)
  {
    if k < n - 1 { CopyDisksAt(lay, d, vals, n - 1, k); }
  }

  lemma {:induction false} InstallDisksAt(lay: Layout, d: Disk, hd: seq<uint32>, n: nat, k: nat)
    requires Fits(lay, d) && ListOk(lay, d, hd) && k < n <= |hd|
    ensures InstallDisks(lay, d, hd, n)[k] == Installed(lay, d, hd, k + 1)
  {
    if k < n - 1 { InstallDisksAt(lay, d, hd, n - 1, k); }
  }

  lemma CommitDisksAt(lay: Layout, d: Disk, hd: seq<uint32>, vals: seq<Block>, k: nat)
    requires Fits(lay, d) && ListOk(lay, d, hd) && |vals| == |hd| && k < 2 * |hd| + 2
    ensures CommitDisks(lay, d, hd, vals)[k] == CommitDisk(lay, d, hd, vals, k + 1)
  {
    var c, n := Committed(lay, d, hd, vals), |hd|;
    if k < n {
      CopyDisksAt(lay, d, vals, n, k);
    } else if n < k < 2 * n + 1 {
      InstallDisksAt(lay, c, hd, n, k - n - 1);
    }
  }

  lemma RecoveryDisksAt(lay: Layout, d: Disk, k: nat)
    requires HeaderOk(lay, d) && k <= |HeadOf(d[lay.start])|
    ensures RecoveryDisks(lay, d)[k] == RecoveryDisk(lay, d, k + 1)
  {
    var hd := HeadOf(d[lay.start]);
    if k < |hd| {
      InstallDisksAt(lay, d, hd, |hd|, k);
    }
  }

  /** Two disks that differ at most inside the log area. */
  ghost predicate SameHome(lay: Layout, d: Disk, e: Disk) {
    |d| == |e| && forall b :: 0 <= b < |d| && !InLog(lay, b) ==> d[b] == e[b]
  }

  /** The home blocks of `d` with the listed blocks replaced: the effect of one transaction. */
  ghost predicate Updated(lay: Layout, d: Disk, hd: seq<uint32>, vals: seq<Block>, e: Disk)
    requires |vals| == |hd|
  {
    && |e| == |d|
    && (forall i :: 0 <= i < |hd| && hd[i] < |e| ==> e[hd[i]] == vals[i])
    && (forall b: nat :: b < |d| && !InLog(lay, b) && b !in hd ==> e[b] == d[b])
  }

  // ---- Installing

  /** Where block `b` ends up: with the copy of its last listing among the first `k`. */
  ghost predicate InstalledAt(lay: Layout, d: Disk, hd: seq<uint32>, k: nat, b: nat, v: Block)
    requires Fits(lay, d) && ListOk(lay, d, hd) && k <= |hd| && b < |d|
  {
    if k == 0 then v == d[b]
    else if hd[k - 1] == b then v == d[lay.start + k]
    else InstalledAt(lay, d, hd, k - 1, b, v)
  }

  lemma {:induction false} InstalledBlock(lay: Layout, d: Disk, hd: seq<uint32>, k: nat, b: nat)
    requires Fits(lay, d) && ListOk(lay, d, hd) && k <= |hd| && b < |d|
    ensures InstalledAt(lay, d, hd, k, b, Installed(lay, d, hd, k)[b])
  {
    if k > 0 {
      InstalledBlock(lay, d, hd, k - 1, b);
      assert InLog(lay, lay.start + k);
    }
  }

  /** Installing from a partly installed disk gives what installing from the start gives. */
  lemma {:induction false} InstallAgain(lay: Layout, d: Disk, e: Disk, hd: seq<uint32>, k: nat, b: nat, v: Block)
    requires Fits(lay, d) && ListOk(lay, d, hd) && |e| == |d| && k <= |hd| && b < |d|
    requires forall c :: 0 <= c < |d| && InLog(lay, c) ==> e[c] == d[c]
    requires InstalledAt(lay, d, hd, k, b, v)
    requires b !in hd[..k] ==> e[b] == d[b]
    ensures InstalledAt(lay, e, hd, k, b, v)
  {
    if k > 0 {
      assert hd[..k] == hd[..k - 1] + [hd[k - 1]];
      assert InLog(lay, lay.start + k);
      if hd[k - 1] != b {
        InstallAgain(lay, d, e, hd, k - 1, b, v);
      }
    }
  }

  lemma {:induction false} UnlistedUntouched(lay: Layout, d: Disk, hd: seq<uint32>, k: nat, b: nat)
    requires Fits(lay, d) && ListOk(lay, d, hd) && k <= |hd| && b < |d|
    requires b !in hd
    ensures Installed(lay, d, hd, k)[b] == d[b]
  {
    if k > 0 {
      UnlistedUntouched(lay, d, hd, k - 1, b);
      assert hd[k - 1] in hd;
    }
  }

  lemma {:induction false} InstalledAtUnique(lay: Layout, d: Disk, hd: seq<uint32>, k: nat, b: nat, v: Block, w: Block)
    requires Fits(lay, d) && ListOk(lay, d, hd) && k <= |hd| && b < |d|
    requires InstalledAt(lay, d, hd, k, b, v) && InstalledAt(lay, d, hd, k, b, w)
    ensures v == w
  {
    if k > 0 && hd[k - 1] != b {
      InstalledAtUnique(lay, d, hd, k - 1, b, v, w);
    }
  }

  /** Redoing all installs on any partly installed disk changes nothing. */
  lemma InstallIdempotent(lay: Layout, d: Disk, hd: seq<uint32>, k: nat)
    requires Fits(lay, d) && ListOk(lay, d, hd) && k <= |hd|
    ensures Installed(lay, Installed(lay, d, hd, k), hd, |hd|) == Installed(lay, d, hd, |hd|)
  {
    var e := Installed(lay, d, hd, k);
    var full, again := Installed(lay, d, hd, |hd|), Installed(lay, e, hd, |hd|);
    forall b | 0 <= b < |d| ensures full[b] == again[b] {
      InstalledBlock(lay, d, hd, |hd|, b);
      InstalledBlock(lay, e, hd, |hd|, b);
      if b !in hd { UnlistedUntouched(lay, d, hd, k, b); }
      assert hd[..|hd|] == hd;
      InstallAgain(lay, d, e, hd, |hd|, b, full[b]);
      InstalledAtUnique(lay, e, hd, |hd|, b, full[b], again[b]);
    }
  }

  /** With distinct blocks, installing delivers each logged copy to its home. */
  lemma {:induction false} InstallDelivers(lay: Layout, d: Disk, hd: seq<uint32>, k: nat, i: nat)
    requires Fits(lay, d) && ListOk(lay, d, hd) && Distinct(hd) && i < k <= |hd|
    ensures Installed(lay, d, hd, k)[hd[i]] == d[lay.start + 1 + i]
  {
    if i < k - 1 {
      InstallDelivers(lay, d, hd, k - 1, i);
    } else {
      assert InLog(lay, lay.start + k);
    }
  }

  // ---- Recovery

  /** Crashing anywhere inside recovery and recovering again gives the same home blocks. */
  lemma RecoveryDiskOk(lay: Layout, d: Disk, k: nat)
    requires HeaderOk(lay, d) && k <= |HeadOf(d[lay.start])| + 1
    ensures HeaderOk(lay, RecoveryDisk(lay, d, k))
    ensures SameHome(lay, Recovered(lay, RecoveryDisk(lay, d, k)), Recovered(lay, d))
  {
    var hd := HeadOf(d[lay.start]);
    assert InLog(lay, lay.start);
    if k <= |hd| {
      InstallIdempotent(lay, d, hd, k);
    }
  }

  /** A boot from `d` that stops, after some of its writes, with `e` on disk. */
  ghost predicate CrashedBoot(lay: Layout, d: Disk, e: Disk)
    requires HeaderOk(lay, d)
  {
    exists k: nat :: k <= |HeadOf(d[lay.start])| + 1 && e == RecoveryDisk(lay, d, k)
  }

  /** A run of boots, each of which crashes inside recovery at the next listed disk. */
  ghost predicate CrashingBoots(lay: Layout, ds: seq<Disk>)
    requires |ds| > 0
    decreases |ds|
  {
    |ds| > 1 ==> HeaderOk(lay, ds[0]) && CrashedBoot(lay, ds[0], ds[1]) && CrashingBoots(lay, ds[1..])
  }

  /** However many boots crash, a boot that finishes recovers what the first would have. */
  lemma {:induction false} CrashesDuringRecovery(lay: Layout, ds: seq<Disk>)
    requires |ds| > 0 && HeaderOk(lay, ds[0]) && CrashingBoots(lay, ds)
    ensures HeaderOk(lay, ds[|ds| - 1])
    ensures SameHome(lay, Recovered(lay, ds[|ds| - 1]), Recovered(lay, ds[0]))
    decreases |ds|
  {
    if |ds| > 1 {
      var k: nat :| k <= |HeadOf(ds[0][lay.start])| + 1 && ds[1] == RecoveryDisk(lay, ds[0], k);
      RecoveryDiskOk(lay, ds[0], k);
      CrashesDuringRecovery(lay, ds[1..]);
    }
  }

  // ---- Commit

  /** A disk whose log is empty recovers to itself. */
  lemma EmptyLogRecovers(lay: Layout, d: Disk)
    requires HeaderOk(lay, d) && Word(d[lay.start], 0) == 0
    ensures SameHome(lay, Recovered(lay, d), d)
  {
  }

  ghost predicate RecoversOld(lay: Layout, d: Disk, s: Disk) {
    HeaderOk(lay, s) && SameHome(lay, Recovered(lay, s), d)
  }

  ghost predicate RecoversNew(lay: Layout, d: Disk, hd: seq<uint32>, vals: seq<Block>, s: Disk)
    requires |vals| == |hd|
  {
    HeaderOk(lay, s) && Updated(lay, d, hd, vals, Recovered(lay, s))
  }

  lemma BeforeHeader(lay: Layout, d: Disk, vals: seq<Block>, k: nat)
    requires HeaderOk(lay, d) && Word(d[lay.start], 0) == 0 && k <= |vals| < lay.size
    ensures RecoversOld(lay, d, LogCopies(lay, d, vals, k))
  {
    EmptyLogRecovers(lay, LogCopies(lay, d, vals, k));
  }

  lemma AfterHeader(lay: Layout, d: Disk, hd: seq<uint32>, vals: seq<Block>, j: nat)
    requires Fits(lay, d) && ListOk(lay, d, hd) && Distinct(hd) && |vals| == |hd| && j <= |hd|
    ensures RecoversNew(lay, d, hd, vals, Installed(lay, Committed(lay, d, hd, vals), hd, j))
  {
    var headed := Committed(lay, d, hd, vals);
    var s := Installed(lay, headed, hd, j);
    assert InLog(lay, lay.start);
    InstallIdempotent(lay, headed, hd, j);
    InstalledHome(lay, d, hd, vals, headed);
    UpdatedSameHome(lay, d, hd, vals, Installed(lay, headed, hd, |hd|), Recovered(lay, s));
  }

  lemma Cleared(lay: Layout, d: Disk, hd: seq<uint32>, vals: seq<Block>)
    requires Fits(lay, d) && ListOk(lay, d, hd) && Distinct(hd) && |vals| == |hd|
    ensures
      var last := WriteHead(lay, Installed(lay, Committed(lay, d, hd, vals), hd, |hd|), []);
      Updated(lay, d, hd, vals, last) && RecoversNew(lay, d, hd, vals, last)
  {
    var headed := Committed(lay, d, hd, vals);
    var e := Installed(lay, headed, hd, |hd|);
    var last := WriteHead(lay, e, []);
    InstalledHome(lay, d, hd, vals, headed);
    UpdatedSameHome(lay, d, hd, vals, e, last);
    EmptyLogRecovers(lay, last);
    UpdatedSameHome(lay, d, hd, vals, e, Recovered(lay, last));
  }

  /** Up to the header write nothing has happened; from the header write on everything has. */
  lemma CommitDiskOk(lay: Layout, d: Disk, hd: seq<uint32>, vals: seq<Block>, k: nat)
    requires HeaderOk(lay, d) && Word(d[lay.start], 0) == 0
    requires ListOk(lay, d, hd) && Distinct(hd) && |vals| == |hd|
    requires k <= 2 * |hd| + 2
    ensures if k <= |hd| then RecoversOld(lay, d, CommitDisk(lay, d, hd, vals, k))
            else RecoversNew(lay, d, hd, vals, CommitDisk(lay, d, hd, vals, k))
  {
    hide RecoversOld, RecoversNew, Installed, LogCopies, WriteHead, Committed;
    if k <= |hd| {
      BeforeHeader(lay, d, vals, k);
    } else if k <= 2 * |hd| + 1 {
      AfterHeader(lay, d, hd, vals, k - |hd| - 1);
    } else {
      Cleared(lay, d, hd, vals);
    }
  }

  /** Installing a log that holds copies `vals` carries out the transaction. */
  lemma InstalledHome(lay: Layout, d: Disk, hd: seq<uint32>, vals: seq<Block>, headed: Disk)
    requires Fits(lay, d) && ListOk(lay, d, hd) && Distinct(hd) && |vals| == |hd|
    requires SameHome(lay, headed, d)
    requires HasCopies(lay, headed, vals)
    ensures Updated(lay, d, hd, vals, Installed(lay, headed, hd, |hd|))
  {
    var e := Installed(lay, headed, hd, |hd|);
    forall i | 0 <= i < |hd| ensures e[hd[i]] == vals[i] {
      InstallDelivers(lay, headed, hd, |hd|, i);
    }
    forall b: nat | b < |d| && !InLog(lay, b) && b !in hd ensures e[b] == d[b] {
      UnlistedUntouched(lay, headed, hd, |hd|, b);
    }
  }

  lemma UpdatedSameHome(lay: Layout, d: Disk, hd: seq<uint32>, vals: seq<Block>, e: Disk, f: Disk)
    requires ListOk(lay, d, hd) && |vals| == |hd|
    requires Updated(lay, d, hd, vals, e) && SameHome(lay, f, e)
    ensures Updated(lay, d, hd, vals, f)
  {
  }

  /** Crash atomicity: cut commit after any write, then crash any number of times during
      recovery; the recovered home blocks are all old or all new, and which of the two is
      decided by whether the header write happened. */
  lemma CommitIsAtomic(lay: Layout, d: Disk, hd: seq<uint32>, vals: seq<Block>, k: nat, ds: seq<Disk>)
    requires HeaderOk(lay, d) && Word(d[lay.start], 0) == 0
    requires ListOk(lay, d, hd) && Distinct(hd) && |vals| == |hd|
    requires k <= 2 * |hd| + 2
    requires |ds| > 0 && ds[0] == CommitDisk(lay, d, hd, vals, k) && CrashingBoots(lay, ds)
    ensures HeaderOk(lay, ds[|ds| - 1])
    ensures
      var r := Recovered(lay, ds[|ds| - 1]);
      if k <= |hd| then SameHome(lay, r, d) else Updated(lay, d, hd, vals, r)
  {
    CommitDiskOk(lay, d, hd, vals, k);
    CrashesDuringRecovery(lay, ds);
    if k > |hd| {
      UpdatedSameHome(lay, d, hd, vals, Recovered(lay, ds[0]), Recovered(lay, ds[|ds| - 1]));
    }
  }

  /** The completed commit leaves an empty log and the new home blocks in place. */
  lemma CommitCompletes(lay: Layout, d: Disk, hd: seq<uint32>, vals: seq<Block>)
    requires Fits(lay, d) && ListOk(lay, d, hd) && Distinct(hd) && |vals| == |hd|
    ensures
      var last := CommitDisk(lay, d, hd, vals, 2 * |hd| + 2);
      HeaderOk(lay, last) && Word(last[lay.start], 0) == 0 && Updated(lay, d, hd, vals, last)
  {
    Cleared(lay, d, hd, vals);
  }

  /** If the machine stops with `s` on disk then, however many boots crash while recovering from
      it, the boot that finishes has the home blocks of `target`. */
  ghost predicate RecoversTo(lay: Layout, s: Disk, target: Disk) {
    && HeaderOk(lay, s)
    && forall ds: seq<Disk> :: |ds| > 0 && ds[0] == s && CrashingBoots(lay, ds) ==>
         HeaderOk(lay, ds[|ds| - 1]) && SameHome(lay, Recovered(lay, ds[|ds| - 1]), target)
  }

  /** The same for each disk of a commit: `d` up to the header write, `after` from it on. */
  lemma CommitAllOrNothing(lay: Layout, d: Disk, hd: seq<uint32>, vals: seq<Block>, k: nat, after: Disk)
    requires HeaderOk(lay, d) && Word(d[lay.start], 0) == 0
    requires ListOk(lay, d, hd) && Distinct(hd) && |vals| == |hd|
    requires k <= 2 * |hd| + 2
    requires Updated(lay, d, hd, vals, after)
    ensures RecoversTo(lay, CommitDisk(lay, d, hd, vals, k), if k <= |hd| then d else after)
  {
    CommitDiskOk(lay, d, hd, vals, k);
    forall ds: seq<Disk> | |ds| > 0 && ds[0] == CommitDisk(lay, d, hd, vals, k) && CrashingBoots(lay, ds)
      ensures HeaderOk(lay, ds[|ds| - 1])
      ensures SameHome(lay, Recovered(lay, ds[|ds| - 1]), if k <= |hd| then d else after)
    {
      CommitIsAtomic(lay, d, hd, vals, k, ds);
      if k > |hd| {
        UpdatedTwice(lay, d, hd, vals, Recovered(lay, ds[|ds| - 1]), after);
      }
    }
  }

  lemma UpdatedTwice(lay: Layout, d: Disk, hd: seq<uint32>, vals: seq<Block>, e: Disk, f: Disk)
    requires ListOk(lay, d, hd) && |vals| == |hd|
    requires Updated(lay, d, hd, vals, e) && Updated(lay, d, hd, vals, f)
    ensures SameHome(lay, e, f)
  {
    forall b | 0 <= b < |d| && !InLog(lay, b) ensures e[b] == f[b] {
      if b in hd {
        var i :| 0 <= i < |hd| && hd[i] == b;
        assert e[hd[i]] == vals[i] && f[hd[i]] == vals[i];
      }
    }
  }

  // ---- The unrecovered disk

  ghost predicate OldOrNew(lay: Layout, s: Disk, before: Disk, after: Disk) {
    && |s| == |before| == |after|
    && forall b :: 0 <= b < |s| && !InLog(lay, b) ==> s[b] == before[b] || s[b] == after[b]
  }

  /** The log has the blocks `hd` of `after`. */
  ghost predicate Carries(lay: Layout, s: Disk, hd: seq<uint32>, after: Disk) {
    && Fits(lay, s) && ListOk(lay, s, hd) && |after| == |s|
    && forall i :: 0 <= i < |hd| ==> s[lay.start + 1 + i] == after[hd[i]]
  }

  /** However far a commit of `hd` or a recovery has come: home blocks are old or new, and what the log
      lists it still has. */
  ghost predicate Midway(lay: Layout, s: Disk, hd: seq<uint32>, before: Disk, after: Disk) {
    && HeaderOk(lay, s) && OldOrNew(lay, s, before, after)
    && (HeadOf(s[lay.start]) != [] ==> HeadOf(s[lay.start]) == hd && Carries(lay, s, hd, after))
  }

  lemma {:induction false} MidwayInstall(lay: Layout, s: Disk, hd: seq<uint32>, before: Disk, after: Disk, k: nat)
    requires Carries(lay, s, hd, after) && OldOrNew(lay, s, before, after) && k <= |hd|
    ensures OldOrNew(lay, Installed(lay, s, hd, k), before, after) && Carries(lay, Installed(lay, s, hd, k), hd, after)
  {
    if k > 0 {
      MidwayInstall(lay, s, hd, before, after, k - 1);
      assert InLog(lay, lay.start + k);
    }
  }

  lemma MidwayBoot(lay: Layout, s: Disk, e: Disk, hd: seq<uint32>, before: Disk, after: Disk)
    requires Midway(lay, s, hd, before, after) && CrashedBoot(lay, s, e)
    ensures Midway(lay, e, hd, before, after)
  {
    var l := HeadOf(s[lay.start]);
    var k: nat :| k <= |l| + 1 && e == RecoveryDisk(lay, s, k);
    var j := if k <= |l| then k else |l|;
    assert InLog(lay, lay.start);
    if l != [] { MidwayInstall(lay, s, hd, before, after, j); }
  }

  lemma {:induction false} MidwayBoots(lay: Layout, ds: seq<Disk>, hd: seq<uint32>, before: Disk, after: Disk)
    requires |ds| > 0 && Midway(lay, ds[0], hd, before, after) && CrashingBoots(lay, ds)
    ensures Midway(lay, ds[|ds| - 1], hd, before, after)
    decreases |ds|
  {
    if |ds| > 1 {
      MidwayBoot(lay, ds[0], ds[1], hd, before, after);
      MidwayBoots(lay, ds[1..], hd, before, after);
    }
  }

  lemma CommitMidway(lay: Layout, d: Disk, hd: seq<uint32>, vals: seq<Block>, k: nat, after: Disk)
    requires HeaderOk(lay, d) && Word(d[lay.start], 0) == 0 && ListOk(lay, d, hd) && |vals| == |hd|
    requires k <= 2 * |hd| + 2 && Updated(lay, d, hd, vals, after)
    ensures Midway(lay, CommitDisk(lay, d, hd, vals, k), hd, d, after)
  {
    assert InLog(lay, lay.start);
    if k > |hd| {
      var c, j := Committed(lay, d, hd, vals), if k <= 2 * |hd| + 1 then k - |hd| - 1 else |hd|;
      assert Carries(lay, c, hd, after);
      MidwayInstall(lay, c, hd, d, after, j);
    }
  }

  /** If the machine stops with `s` on disk then, however many boots crash, every home block on the disk
      is that of `before` or that of `after`. */
  ghost predicate StaysBetween(lay: Layout, s: Disk, before: Disk, after: Disk) {
    forall ds: seq<Disk> :: |ds| > 0 && ds[0] == s && CrashingBoots(lay, ds) ==>
      OldOrNew(lay, ds[|ds| - 1], before, after)
  }

  /** So what a transaction does not change can be read before recovery, as the super block is. */
  lemma CommitBetween(lay: Layout, d: Disk, hd: seq<uint32>, vals: seq<Block>, k: nat, after: Disk)
    requires HeaderOk(lay, d) && Word(d[lay.start], 0) == 0 && ListOk(lay, d, hd) && |vals| == |hd|
    requires k <= 2 * |hd| + 2 && Updated(lay, d, hd, vals, after)
    ensures StaysBetween(lay, CommitDisk(lay, d, hd, vals, k), d, after)
  {
    var s := CommitDisk(lay, d, hd, vals, k);
    CommitMidway(lay, d, hd, vals, k, after);
    forall ds: seq<Disk> | |ds| > 0 && ds[0] == s && CrashingBoots(lay, ds)
      ensures OldOrNew(lay, ds[|ds| - 1], d, after)
    {
      MidwayBoots(lay, ds, hd, d, after);
    }
  }
}
