/** The ring buffer of pipe.c with its two wrapping 32-bit counters. */
module Pipe {
  import opened Blocks
  import opened Collections

  const PIPESIZE: nat := 512
  const WRAP: nat := 0x1_0000_0000

  datatype Ring = Ring(data: seq<byte>, nread: nat, nwrite: nat)

  predicate Full(r: Ring) { r.nwrite == (r.nread + PIPESIZE) % WRAP }

  predicate Empty(r: Ring) { r.nread == r.nwrite }

  function Put(r: Ring, b: byte): Ring
    requires |r.data| == PIPESIZE
  {
    Ring(r.data[r.nwrite % PIPESIZE := b], r.nread, (r.nwrite + 1) % WRAP)
  }

  function Front(r: Ring): byte
    requires |r.data| == PIPESIZE
  {
    r.data[r.nread % PIPESIZE]
  }

  function Drop(r: Ring): Ring { r.(nread := (r.nread + 1) % WRAP) }

  /** Byte `k` of everything ever stored still lies in its slot. */
  predicate InSlot(r: Ring, stored: seq<byte>, k: nat)
    requires |r.data| == PIPESIZE
  {
    k < |stored| && r.data[k % PIPESIZE] == stored[k]
  }

  /** The ring holds the bytes of `stored` from `taken` on, at most PIPESIZE of them, whatever the
      counters have wrapped to. */
  ghost predicate Holds(r: Ring, stored: seq<byte>, taken: nat) {
    && |r.data| == PIPESIZE && taken <= |stored| <= taken + PIPESIZE
    && r.nwrite == |stored| % WRAP && r.nread == taken % WRAP
    && forall k :: taken <= k < |stored| ==> InSlot(r, stored, k)
  }

  lemma WrapKeepsSlot(x: nat)
    ensures (x % WRAP) % PIPESIZE == x % PIPESIZE
  {
    var q, r := x / WRAP, x % WRAP;
    assert x == PIPESIZE * (8388608 * q) + r;
    assert x / PIPESIZE == 8388608 * q + r / PIPESIZE;
  }

  lemma NextWraps(x: nat, d: nat)
    ensures (x % WRAP + d) % WRAP == (x + d) % WRAP
  {
    assert x + d == x / WRAP * WRAP + (x % WRAP + d);
  }

  lemma ApartInWindow(a: nat, b: nat)
    requires a < b < a + PIPESIZE
    ensures a % PIPESIZE != b % PIPESIZE
  {
  }

  lemma WindowTells(a: nat, d: nat, e: nat)
    requires d <= PIPESIZE && e <= PIPESIZE
    ensures (a + d) % WRAP == (a + e) % WRAP <==> d == e
  {
    NextWraps(a, d);
    NextWraps(a, e);
  }

  /** The counters tell full from empty although they wrap: the window is far below 2^32. */
  lemma FillLevel(r: Ring, stored: seq<byte>, taken: nat)
    requires Holds(r, stored, taken)
    ensures Full(r) <==> |stored| == taken + PIPESIZE
    ensures Empty(r) <==> |stored| == taken
  {
    NextWraps(taken, PIPESIZE);
    WindowTells(taken, |stored| - taken, PIPESIZE);
    WindowTells(taken, |stored| - taken, 0);
  }

  lemma PutHolds(r: Ring, stored: seq<byte>, taken: nat, b: byte)
    requires Holds(r, stored, taken) && !Full(r)
    ensures Holds(Put(r, b), stored + [b], taken)
  {
    var q, all := Put(r, b), stored + [b];
    FillLevel(r, stored, taken);
    NextWraps(|stored|, 1);
    WrapKeepsSlot(|stored|);
    forall k | taken <= k < |all| ensures InSlot(q, all, k) {
      if k < |stored| {
        assert InSlot(r, stored, k);
        ApartInWindow(k, |stored|);
      }
    }
  }

  lemma DropHolds(r: Ring, stored: seq<byte>, taken: nat)
    requires Holds(r, stored, taken) && !Empty(r)
    ensures taken < |stored| && Front(r) == stored[taken] && Holds(Drop(r), stored, taken + 1)
  {
    FillLevel(r, stored, taken);
    NextWraps(taken, 1);
    WrapKeepsSlot(taken);
    assert InSlot(r, stored, taken);
    forall k | taken + 1 <= k < |stored| ensures InSlot(Drop(r), stored, k) { assert InSlot(r, stored, k); }
  }

  /** The struct itself. The two copying loops run with the pipe lock held. */
  class PipeBuf {
    const data: array<byte>
    var nread: uint32
    var nwrite: uint32
    ghost var stored: seq<byte> // every byte ever written
    ghost var taken: nat        // how many of them have been read

    ghost function R(): Ring
      reads this, data
    {
      Ring(data[..], nread, nwrite)
    }

    ghost predicate Valid()
      reads this, data
    {
      data.Length == PIPESIZE && Holds(R(), stored, taken)
    }

    constructor ()
      ensures Valid() && stored == [] && taken == 0 && fresh(data)
    {
      data := new byte[PIPESIZE];
      nread, nwrite, stored, taken := 0, 0, [], 0;
    }

    method StoreByte(b: byte)
      requires Valid() && !Full(R())
      modifies this`nwrite, this`stored, data
      ensures Valid() && stored == old(stored) + [b]
    {
      ghost var r := R();
      PutHolds(r, stored, taken, b);
      data[nwrite % PIPESIZE] := b;
      nwrite := (nwrite + 1) % WRAP;
      assert R() == Put(r, b);
      stored := stored + [b];
    }

    /** The store loop of pipewrite up to the next full buffer: as many bytes as fit, in order. */
    method WriteSome(addr: seq<byte>, from: nat) returns (i: nat)
      requires Valid() && from <= |addr|
      modifies this, data
      ensures Valid() && taken == old(taken)
      ensures i == from + Min(|addr| - from, PIPESIZE - (old(|stored|) - taken))
      ensures stored == old(stored) + addr[from..i]
    {
      i := from;
      assert addr[from..from] == [];
      FillLevel(R(), stored, taken);
      while i < |addr| && nwrite != (nread + PIPESIZE) % WRAP
        invariant Valid() && taken == old(taken) && from <= i <= |addr|
        invariant stored == old(stored) + addr[from..i]
        invariant Full(R()) <==> |stored| == taken + PIPESIZE
        invariant |stored| <= taken + PIPESIZE
      {
        assert addr[from..i + 1] == addr[from..i] + [addr[i]];
        StoreByte(addr[i]);
        i := i + 1;
        FillLevel(R(), stored, taken);
      }
    }

    /** The copy loop of piperead: the oldest unread bytes, `n` of them or all there are. */
    method ReadSome(n: nat) returns (out: seq<byte>)
      requires Valid()
      modifies this
      ensures Valid() && stored == old(stored)
      ensures taken == old(taken) + |out| && |out| == Min(n, |stored| - old(taken))
      ensures out == stored[old(taken)..taken]
    {
      out := [];
      FillLevel(R(), stored, taken);
      while |out| < n
        invariant Valid() && stored == old(stored) && taken == old(taken) + |out|
        invariant |out| <= n && out == stored[old(taken)..taken]
        invariant Empty(R()) <==> |stored| == taken
      {
        if nread == nwrite { break; }
        DropHolds(R(), stored, taken);
        out := out + [data[nread % PIPESIZE]];
        nread := (nread + 1) % WRAP;
        taken := taken + 1;
        FillLevel(R(), stored, taken);
      }
    }
  }
}
