/** Disk blocks as the file system sees them: 512 bytes, read either byte by byte
    or as 128 little-endian 32-bit words (the `uint` views of log.c and fs.c). */
module Blocks {
  const BSIZE: nat := 512
  const NWORDS: nat := 128

  type byte = x: int | 0 <= x < 0x100
  type uint32 = x: int | 0 <= x < 0x1_0000_0000
  type Block = b: seq<byte> | |b| == 512 witness Zeros(512)

  function Zeros(n: nat): (s: seq<byte>)
    ensures |s| == n && forall i :: 0 <= i < n ==> s[i] == 0
  {
    if n == 0 then [] else Zeros(n - 1) + [0]
  }

  const ZeroBlock: Block := Zeros(512)

  function Word(b: Block, i: nat): (w: uint32)
    requires i < NWORDS
  {
    (b[4 * i] as int) + 0x100 * (b[4 * i + 1] as int)
    + 0x1_0000 * (b[4 * i + 2] as int) + 0x100_0000 * (b[4 * i + 3] as int)
  }

  lemma WordBytes(w: uint32)
    ensures w / 0x100_0000 < 0x100
    ensures w == w % 0x100 + 0x100 * ((w / 0x100) % 0x100) + 0x1_0000 * ((w / 0x1_0000) % 0x100)
               + 0x100_0000 * (w / 0x100_0000)
  {
    var a, b := w / 0x100, w / 0x1_0000;
    assert b == a / 0x100 && w / 0x100_0000 == b / 0x100;
  }

  /** Store one word in place: `((uint*)data)[i] = w`. */
  function SetWord(b: Block, i: nat, w: uint32): (r: Block)
    requires i < NWORDS
    ensures Word(r, i) == w
    ensures forall j :: 0 <= j < NWORDS && j != i ==> Word(r, j) == Word(b, j)
    ensures forall k :: 0 <= k < 512 && !(4 * i <= k < 4 * i + 4) ==> r[k] == b[k]
  {
    WordBytes(w);
    b[4 * i := w % 0x100][4 * i + 1 := (w / 0x100) % 0x100]
     [4 * i + 2 := (w / 0x1_0000) % 0x100][4 * i + 3 := w / 0x100_0000]
  }

  lemma ZeroWord(i: nat)
    requires i < NWORDS
    ensures Word(ZeroBlock, i) == 0
  {
  }
}
