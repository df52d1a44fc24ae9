/** From the host's files to a running file system: mkfs makes the image, the kernel comes up on it. */
module Boot {
  import opened Blocks
  import opened FsLayout
  import opened FsState
  import opened FsFile
  import opened Fs
  import opened File
  import opened DiskFormat
  import Crash
  import L = LogSpec
  import Log
  import Mkfs
  import MkfsSpec

  /** Where mkfs puts the log. */
  const LOG: L.Layout := L.Layout(2, L.LOGSIZE)

  const LAYOUT: Super := Mkfs.Layout()

  lemma ImageBootable(image: seq<Block>, s: State)
    requires |image| == Mkfs.FSSIZE && MkfsSpec.Preamble(LAYOUT, image) && Healthy(LAYOUT, s) && s.blk == image
    ensures Crash.Bootable(LAYOUT, LOG, image, s) && Crash.Placed(LAYOUT, LOG)
  {
    hide Healthy, Crash.Reads, L.Recovered;
    ZeroWord(0);
    assert image[2] == ZeroBlock;
    L.EmptyLogRecovers(LOG, image);
    Crash.SameHomeReads(LAYOUT, LOG, s, L.Recovered(LOG, image));
  }

  lemma FileHas(s: State, t: State, files: seq<MkfsSpec.HostFile>, j: nat)
    requires Healthy(LAYOUT, s) && Healthy(LAYOUT, t) && MkfsSpec.Holds(LAYOUT, s, files) && j < |files|
    requires FileIs(LAYOUT, t, j + 2, ContentOf(LAYOUT, s, j + 2))
    ensures ContentOf(LAYOUT, t, j + 2) == files[j].content
  {
    assert MkfsSpec.HasBytes(LAYOUT, s, j + 2, files[j].content);
  }

  /** The super block, number by number: sizes, then where the log, the inodes and the free map begin. */
  lemma SuperRead(d: seq<Block>)
    requires |d| == 1000 && MkfsSpec.Preamble(LAYOUT, d)
    ensures Long(d, 1, 0) == 1000 && Long(d, 1, 4) == 941 && Long(d, 1, 8) == 200
    ensures Long(d, 1, 12) == 30 && Long(d, 1, 16) == 2 && Long(d, 1, 20) == 32 && Long(d, 1, 24) == 58
  {
    LongIsWord(d, 1, 0);
    LongIsWord(d, 1, 1);
    LongIsWord(d, 1, 2);
    LongIsWord(d, 1, 3);
    LongIsWord(d, 1, 4);
    LongIsWord(d, 1, 5);
    LongIsWord(d, 1, 6);
  }

  lemma FileOnDisk(t: State, files: seq<MkfsSpec.HostFile>, j: nat)
    requires Healthy(LAYOUT, t) && j < |files| && Mkfs.Typed(t.ino, |files|) && j + 2 < LAYOUT.ninodes
    requires ContentOf(LAYOUT, t, j + 2) == files[j].content
    ensures Finds(t.blk, 32, j + 2, 2, 1, files[j].content)
  {
    FileRead(LAYOUT, t, j + 2);
  }

  lemma AllThere(s: State, t: State, files: seq<MkfsSpec.HostFile>)
    requires Healthy(LAYOUT, s) && Healthy(LAYOUT, t) && MkfsSpec.Holds(LAYOUT, s, files) && t.ino == s.ino
    requires |files| + 2 <= LAYOUT.ninodes && Mkfs.Typed(s.ino, |files|)
    requires forall n: nat :: n < LAYOUT.ninodes ==> FileIs(LAYOUT, t, n, ContentOf(LAYOUT, s, n))
    ensures forall j: nat :: j < |files| ==>
      ContentOf(LAYOUT, t, j + 2) == files[j].content && Finds(t.blk, 32, j + 2, 2, 1, files[j].content)
  {
    hide Healthy, FileIs, MkfsSpec.Holds, Finds, Mkfs.Typed;
    forall j: nat | j < |files|
      ensures ContentOf(LAYOUT, t, j + 2) == files[j].content && Finds(t.blk, 32, j + 2, 2, 1, files[j].content)
    {
      FileHas(s, t, files, j);
      FileOnDisk(t, files, j);
    }
  }

  /** Inode 1 is a directory with the contents `root`, which lists the files; its size is rounded up to the next
      block, always. */
  ghost predicate RootListed(d: seq<Block>, root: seq<byte>, files: seq<MkfsSpec.HostFile>) {
    && |root| == (16 * (|files| + 2) / 512 + 1) * 512
    && Finds(d, 32, 1, 1, 1, root) && MkfsSpec.Lists(root[..16 * (|files| + 2)], files)
  }

  lemma BytesFront(s: State, n: nat, k: nat)
    requires Healthy(LAYOUT, s) && n < LAYOUT.ninodes && k <= s.ino[n].size
    ensures Shape(LAYOUT, s) && k <= MAXBYTES && Bytes(LAYOUT, s, n, k) == ContentOf(LAYOUT, s, n)[..k]
  {
    assert InodeOk(LAYOUT, s, n);
    forall i | 0 <= i < k ensures Bytes(LAYOUT, s, n, k)[i] == ContentOf(LAYOUT, s, n)[i] {
      BytesAt(LAYOUT, s, n, k, i);
      BytesAt(LAYOUT, s, n, s.ino[n].size, i);
    }
  }

  lemma RootFacts(s: State, files: seq<MkfsSpec.HostFile>)
    requires MkfsSpec.Holds(LAYOUT, s, files) && Mkfs.Typed(s.ino, |files|)
    ensures 16 * (|files| + 2) <= MAXBYTES && s.ino[1].size == (16 * (|files| + 2) / 512 + 1) * 512
    ensures s.ino[1].typ == 1 && s.ino[1].nlink == 1
  {}

  lemma RootThere(s: State, t: State, files: seq<MkfsSpec.HostFile>)
    requires Healthy(LAYOUT, s) && Healthy(LAYOUT, t) && MkfsSpec.Holds(LAYOUT, s, files) && t.ino == s.ino
    requires Mkfs.Typed(s.ino, |files|) && FileIs(LAYOUT, t, 1, ContentOf(LAYOUT, s, 1))
    requires MkfsSpec.Lists(Bytes(LAYOUT, s, 1, 16 * (|files| + 2)), files)
    ensures RootListed(t.blk, ContentOf(LAYOUT, t, 1), files)
  {
    hide Healthy, Shape, MkfsSpec.Lists, MkfsSpec.Holds, MkfsSpec.Entries, Mkfs.Typed, Finds, Bytes;
    RootFacts(s, files);
    BytesFront(s, 1, 16 * (|files| + 2));
    FileRead(LAYOUT, t, 1);
  }

  /** The files of the host are the files of the file system that comes up, on disk and in memory, under their
      names in the root directory, and any of them is open on a log with room for an operation. */
  method FirstBoot(files: seq<MkfsSpec.HostFile>, i: nat) returns (f: OpenFile, log: Log.Log)
    requires |files| + 2 <= Mkfs.NINODES && MkfsSpec.Fit(LAYOUT, files) && (|files| + 2) % 32 != 0 && i < |files|
    ensures Crash.Mounted(f, log) && f.inum == i + 2 && f.off == 0
    ensures f.fs.sb.size / BPB + 2 <= log.Limit()
    ensures forall j: nat :: j < |files| ==>
      j + 2 < f.fs.sb.ninodes && ContentOf(f.fs.sb, f.fs.St(), j + 2) == files[j].content
    ensures forall j: nat :: j < |files| ==> Finds(f.fs.blk, 32, j + 2, 2, 1, files[j].content)
    ensures RootListed(f.fs.blk, ContentOf(f.fs.sb, f.fs.St(), 1), files)
  {
    hide Healthy, Crash.Bootable, Crash.Placed, Crash.Described, FileIs, Decoded;
    hide MkfsSpec.Fit, MkfsSpec.Holds, MkfsSpec.Preamble, MkfsSpec.Lists, Finds, RootListed, Bytes;
    var ok, image;
    ghost var s;
    ok, image, s := Mkfs.MakeImage(files);
    ImageBootable(image, s);
    var fs;
    fs, log := Crash.Boot(image, LAYOUT, LOG, s);
    f := new OpenFile(fs, i + 2, true, true);
    AllThere(s, fs.St(), files);
    RootThere(s, fs.St(), files);
  }
}
