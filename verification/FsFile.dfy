/** Files as flat byte sequences. */
module FsFile {
  import opened Blocks
  import opened FsLayout
  import opened FsState

  const MAXBYTES: nat := 71680        // MAXFILE * BSIZE

  function FileByte(sb: Super, s: State, n: nat, i: nat): byte
    requires Shape(sb, s) && n < sb.ninodes && i < MAXBYTES
  {
    FileBlock(sb, s, n, i / BSIZE)[i % BSIZE]
  }

  function Bytes(sb: Super, s: State, n: nat, k: nat): (c: seq<byte>)
    requires Shape(sb, s) && n < sb.ninodes && k <= MAXBYTES
    ensures |c| == k
  {
    if k == 0 then [] else Bytes(sb, s, n, k - 1) + [FileByte(sb, s, n, k - 1)]
  }

  /** No file is larger than its address blocks can map, and none has a hole. */
  ghost predicate FileOk(sb: Super, s: State, n: nat)
    requires Shape(sb, s) && n < sb.ninodes
  {
    s.ino[n].size <= MAXBYTES && Mapped(sb, s, n, s.ino[n].size)
  }

  /** Every block that begins before offset `k` has an address. */
  ghost predicate Mapped(sb: Super, s: State, n: nat, k: nat)
    requires Shape(sb, s) && n < sb.ninodes && k <= MAXBYTES
  {
    forall bn: nat :: bn * BSIZE < k ==> BnMapped(sb, s, n, bn)
  }

  ghost predicate BnMapped(sb: Super, s: State, n: nat, bn: nat)
    requires Shape(sb, s) && n < sb.ninodes
  {
    bn < MAXFILE && AddrOf(sb, s, BRef(n, bn)) != 0
  }

  /** The file's content. */
  function Content(sb: Super, s: State, n: nat): (c: seq<byte>)
    requires Shape(sb, s) && n < sb.ninodes && s.ino[n].size <= MAXBYTES
    ensures |c| == s.ino[n].size
  {
    Bytes(sb, s, n, s.ino[n].size)
  }

  /** Overwrite from `off` on, growing the sequence if need be. */
  function Splice(c: seq<byte>, off: nat, src: seq<byte>): seq<byte>
    requires off <= |c|
  {
    c[..off] + src + if off + |src| < |c| then c[off + |src|..] else []
  }

  /** In all files, only `part` at offset `o` of file `n` reads differently. */
  ghost predicate BytesWritten(sb: Super, s: State, t: State, n: nat, o: nat, part: seq<byte>)
    requires Shape(sb, s) && Shape(sb, t) && n < sb.ninodes && o + |part| <= MAXBYTES
  {
    forall m: nat, i: nat :: m < sb.ninodes && i < MAXBYTES ==> ByteWritten(sb, s, t, n, o, part, m, i)
  }

  ghost predicate ByteWritten(sb: Super, s: State, t: State, n: nat, o: nat, part: seq<byte>, m: nat, i: nat)
    requires Shape(sb, s) && Shape(sb, t) && m < sb.ninodes && i < MAXBYTES
  {
    FileByte(sb, t, m, i) == if m == n && o <= i < o + |part| then part[i - o] else FileByte(sb, s, m, i)
  }

  lemma WroteNothing(sb: Super, s: State, t: State, n: nat, o: nat)
    requires Shape(sb, s) && Shape(sb, t) && n < sb.ninodes && o <= MAXBYTES && SameFiles(sb, s, t)
    ensures BytesWritten(sb, s, t, n, o, [])
  {
  }

  /** A write inside one block. */
  lemma WroteBlock(sb: Super, s: State, t: State, n: nat, o: nat, part: seq<byte>, data: Block)
    requires Shape(sb, s) && Shape(sb, t) && n < sb.ninodes && o + |part| <= MAXBYTES
    requires o % BSIZE + |part| <= BSIZE && o / BSIZE < MAXFILE
    requires OneBlockChanged(sb, s, t, n, o / BSIZE, data)
    requires
      var was := FileBlock(sb, s, n, o / BSIZE);
      data == was[..o % BSIZE] + part + was[o % BSIZE + |part|..]
    ensures BytesWritten(sb, s, t, n, o, part)
  {
    forall m: nat, i: nat | m < sb.ninodes && i < MAXBYTES ensures ByteWritten(sb, s, t, n, o, part, m, i) {
      var was := FileBlock(sb, s, n, o / BSIZE);
      if m == n && i / BSIZE == o / BSIZE {
        assert i - o == i % BSIZE - o % BSIZE;
      }
    }
  }

  lemma WroteBoth(sb: Super, s: State, t: State, u: State, n: nat, o: nat, p: seq<byte>, q: seq<byte>)
    requires Shape(sb, s) && Shape(sb, t) && Shape(sb, u) && n < sb.ninodes && o + |p| + |q| <= MAXBYTES
    requires BytesWritten(sb, s, t, n, o, p) && BytesWritten(sb, t, u, n, o + |p|, q)
    ensures BytesWritten(sb, s, u, n, o, p + q)
  {
    forall m: nat, i: nat | m < sb.ninodes && i < MAXBYTES ensures ByteWritten(sb, s, u, n, o, p + q, m, i) {
      assert ByteWritten(sb, s, t, n, o, p, m, i) && ByteWritten(sb, t, u, n, o + |p|, q, m, i);
    }
  }

  lemma {:induction false} BytesAt(sb: Super, s: State, n: nat, k: nat, i: nat)
    requires Shape(sb, s) && n < sb.ninodes && i < k <= MAXBYTES
    ensures Bytes(sb, s, n, k)[i] == FileByte(sb, s, n, i)
  {
    if i < k - 1 { BytesAt(sb, s, n, k - 1, i); }
  }

  /** What a write means for the content of the file and of all others. */
  lemma WroteContent(sb: Super, s: State, t: State, n: nat, o: nat, src: seq<byte>)
    requires Shape(sb, s) && Shape(sb, t) && n < sb.ninodes && o + |src| <= MAXBYTES
    requires BytesWritten(sb, s, t, n, o, src)
    requires o <= s.ino[n].size <= MAXBYTES
    requires t.ino[n].size == if o + |src| > s.ino[n].size then o + |src| else s.ino[n].size as int
    ensures Content(sb, t, n) == Splice(Content(sb, s, n), o, src)
  {
    var c, d := Content(sb, t, n), Splice(Content(sb, s, n), o, src);
    assert |c| == |d|;
    forall i | 0 <= i < |c| ensures c[i] == d[i] {
      assert ByteWritten(sb, s, t, n, o, src, n, i);
      BytesAt(sb, t, n, t.ino[n].size, i);
      if i < s.ino[n].size { BytesAt(sb, s, n, s.ino[n].size, i); }
    }
  }

  lemma OtherContent(sb: Super, s: State, t: State, n: nat, o: nat, src: seq<byte>, m: nat)
    requires Shape(sb, s) && Shape(sb, t) && n < sb.ninodes && o + |src| <= MAXBYTES
    requires BytesWritten(sb, s, t, n, o, src)
    requires m < sb.ninodes && m != n && t.ino[m] == s.ino[m] && s.ino[m].size <= MAXBYTES
    ensures Content(sb, t, m) == Content(sb, s, m)
  {
    forall i | 0 <= i < s.ino[m].size ensures Content(sb, t, m)[i] == Content(sb, s, m)[i] {
      assert ByteWritten(sb, s, t, n, o, src, m, i);
      BytesAt(sb, t, m, t.ino[m].size, i);
      BytesAt(sb, s, m, s.ino[m].size, i);
    }
  }

  /** A slice of the content that lies in one block. */
  lemma SliceOfBlock(sb: Super, s: State, n: nat, o: nat, m: nat)
    requires Shape(sb, s) && n < sb.ninodes && s.ino[n].size <= MAXBYTES
    requires o + m <= s.ino[n].size && o % BSIZE + m <= BSIZE && o / BSIZE < MAXFILE
    ensures Content(sb, s, n)[o..o + m] == FileBlock(sb, s, n, o / BSIZE)[o % BSIZE..o % BSIZE + m]
  {
    var x, y := Content(sb, s, n)[o..o + m], FileBlock(sb, s, n, o / BSIZE)[o % BSIZE..o % BSIZE + m];
    forall i | 0 <= i < m ensures x[i] == y[i] {
      BytesAt(sb, s, n, s.ino[n].size, o + i);
      assert (o + i) / BSIZE == o / BSIZE && (o + i) % BSIZE == o % BSIZE + i;
    }
  }
}
