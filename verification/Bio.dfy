/** The buffer cache of bio.c over the memory disk of memide.c.

    Buffers live in one array and are linked through indices, least recently used last;
    the sentinel `bcache.head` is the slot behind the array. The cache, with the disk
    below it, shows its clients one logical block map. */
module Bio {
  import opened Blocks

  const NBUF: nat := 30
  const HEAD: nat := 30
  const ROOTDEV: nat := 1

  datatype Outcome<T> = Ok(value: T) | Panic

  datatype Buf = Buf(dev: nat, blockno: uint32, valid: bool, dirty: bool,
                     locked: bool, refcnt: nat, prev: nat, next: nat, data: Block)
  {
    predicate Holds(b: int) { dev == ROOTDEV && blockno == b }
    predicate Evictable() { refcnt == 0 && !dirty }
    predicate Pins() { dirty || locked }

    /** Take one more reference and the sleep lock. */
    function Grab(): Buf { this.(refcnt := refcnt + 1, locked := true) }

    /** Give back the lock and one reference. */
    function Drop(): Buf
      requires refcnt > 0
    { this.(refcnt := refcnt - 1, locked := false) }

    /** Reassign to another block; the old contents are dropped. */
    function Recycle(b: uint32): Buf {
      this.(dev := ROOTDEV, blockno := b, valid := false, dirty := false, refcnt := 1, locked := true)
    }

    /** The same buffer at another place in the list. */
    function At(b: Buf): Buf { this.(prev := b.prev, next := b.next) }
  }

  // ---- The doubly linked list

  function SetNext(buf: seq<Buf>, i: nat, n: nat): seq<Buf>
    requires i < |buf|
  { buf[i := buf[i].(next := n)] }

  function SetPrev(buf: seq<Buf>, i: nat, p: nat): seq<Buf>
    requires i < |buf|
  { buf[i := buf[i].(prev := p)] }

  ghost predicate Slots(order: seq<nat>) {
    && |order| >= 1 && order[0] == HEAD
    && (forall i :: 0 <= i < |order| ==> order[i] <= NBUF)
    && (forall i, j :: 0 <= i < j < |order| ==> order[i] != order[j])
  }

  function Next(n: nat, i: nat): nat { if i == n - 1 then 0 else i + 1 }
  function Prev(n: nat, i: nat): int { if i == 0 then n - 1 else i - 1 }

  ghost predicate LinkAt(buf: seq<Buf>, order: seq<nat>, i: nat)
    requires |buf| == NBUF + 1 && Slots(order) && i < |order|
  {
    buf[order[i]].next == order[Next(|order|, i)] && buf[order[i]].prev == order[Prev(|order|, i)]
  }

  /** `order` lists, from the sentinel on, the slots that next and prev run through. */
  ghost predicate Chain(buf: seq<Buf>, order: seq<nat>) {
    && |buf| == NBUF + 1 && Slots(order)
    && (forall i :: 0 <= i < |order| ==> LinkAt(buf, order, i))
  }

  /** All buffers are on the list. */
  ghost predicate Linked(buf: seq<Buf>, ring: seq<nat>) {
    && Chain(buf, ring) && |ring| == NBUF + 1
    && (forall b :: 0 <= b <= NBUF ==> b in ring)
  }

  /** Take `b` out of the list: `b->next->prev = b->prev; b->prev->next = b->next`. */
  function Unlink(buf: seq<Buf>, b: nat): (r: seq<Buf>)
    requires b < |buf| && buf[b].next < |buf| && buf[b].prev < |buf|
    ensures |r| == |buf|
    ensures buf[b].next != b && buf[b].prev != b ==> forall x :: 0 <= x < |buf| ==>
      && r[x].next == (if x == buf[b].prev then buf[b].next else buf[x].next)
      && r[x].prev == (if x == buf[b].next then buf[b].prev else buf[x].prev)
    ensures forall x :: 0 <= x < |buf| ==> r[x] == buf[x].At(r[x])
  {
    var buf := SetPrev(buf, buf[b].next, buf[b].prev);
    SetNext(buf, buf[b].prev, buf[b].next)
  }

  /** Put `b` behind the sentinel, as binit and brelse do. */
  function PushFront(buf: seq<Buf>, b: nat): (r: seq<Buf>)
    requires |buf| == NBUF + 1 && b < NBUF && buf[HEAD].next < |buf|
    ensures |r| == |buf|
    ensures forall x :: 0 <= x < |buf| ==> r[x] == buf[x].At(r[x])
  {
    var buf := SetPrev(SetNext(buf, b, buf[HEAD].next), b, HEAD);
    SetNext(SetPrev(buf, buf[HEAD].next, b), HEAD, b)
  }

  function Without(order: seq<nat>, k: nat): (o: seq<nat>)
    requires k < |order|
    ensures |o| == |order| - 1
    ensures forall i :: 0 <= i < |o| ==> o[i] == order[if i < k then i else i + 1]
  {
    order[..k] + order[k + 1..]
  }

  lemma WithoutSlots(order: seq<nat>, k: nat)
    requires Slots(order) && 1 <= k < |order|
    ensures Slots(Without(order, k)) && order[k] !in Without(order, k)
  {
  }

  lemma NeighboursInRange(buf: seq<Buf>, order: seq<nat>, k: nat)
    requires Chain(buf, order) && 1 <= k < |order|
    ensures buf[order[k]].next < |buf| && buf[order[k]].prev < |buf|
    ensures buf[order[k]].next == order[Next(|order|, k)] && buf[order[k]].prev == order[k - 1]
  {
    assert LinkAt(buf, order, k);
  }

  /** The links of a remaining slot, at `i` in the shorter list. */
  lemma UnlinkAt(buf: seq<Buf>, order: seq<nat>, k: nat, i: nat)
    requires Chain(buf, order) && 1 <= k < |order| && i < |order| - 1 && Slots(Without(order, k))
    requires buf[order[k]].next < |buf| && buf[order[k]].prev < |buf|
    ensures LinkAt(Unlink(buf, order[k]), Without(order, k), i)
  {
    var j, m := if i < k then i else i + 1, Next(|order|, k);
    NeighboursInRange(buf, order, k);
    assert LinkAt(buf, order, j);
    assert order[j] == order[k - 1] <==> j == k - 1;
    assert order[j] == order[m] <==> j == m;
  }

  lemma UnlinkChain(buf: seq<Buf>, order: seq<nat>, k: nat)
    requires Chain(buf, order) && 1 <= k < |order|
    ensures buf[order[k]].next < |buf| && buf[order[k]].prev < |buf|
    ensures Chain(Unlink(buf, order[k]), Without(order, k))
  {
    NeighboursInRange(buf, order, k);
    WithoutSlots(order, k);
    forall i | 0 <= i < |order| - 1
      ensures LinkAt(Unlink(buf, order[k]), Without(order, k), i)
    {
      UnlinkAt(buf, order, k, i);
    }
  }

  lemma PushSlots(order: seq<nat>, b: nat)
    requires Slots(order) && b < NBUF && b !in order
    ensures Slots([HEAD, b] + order[1..])
  {
  }

  lemma PushAt(buf: seq<Buf>, order: seq<nat>, b: nat, i: nat)
    requires Chain(buf, order) && b < NBUF && b !in order && i <= |order| && buf[HEAD].next < |buf|
    requires Slots([HEAD, b] + order[1..])
    ensures LinkAt(PushFront(buf, b), [HEAD, b] + order[1..], i)
  {
    assert LinkAt(buf, order, 0);
    if i >= 2 {
      assert LinkAt(buf, order, i - 1);
      assert order[i - 1] != HEAD && order[i - 1] != b;
    }
  }

  lemma PushChain(buf: seq<Buf>, order: seq<nat>, b: nat)
    requires Chain(buf, order) && b < NBUF && b !in order
    ensures buf[HEAD].next < |buf|
    ensures Chain(PushFront(buf, b), [HEAD, b] + order[1..])
  {
    assert LinkAt(buf, order, 0);
    PushSlots(order, b);
    forall i | 0 <= i < |order| + 1 ensures LinkAt(PushFront(buf, b), [HEAD, b] + order[1..], i) {
      PushAt(buf, order, b, i);
    }
  }

  /** The list order after the buffer at position `k` became the most recently used. */
  ghost function ToFront(ring: seq<nat>, k: nat): seq<nat>
    requires 1 <= k < |ring|
  {
    [ring[0], ring[k]] + Without(ring, k)[1..]
  }

  /** Buffer `b` has gone from position `k` to the first one behind the head; the others keep their order. */
  ghost predicate Fronted(was: seq<nat>, now: seq<nat>, b: nat, k: nat)
    requires 1 <= k < |was|
  {
    now == [was[0], b] + was[1..k] + was[k + 1..]
  }

  lemma FirstIs(buf: seq<Buf>, was: seq<nat>, now: seq<nat>, b: nat)
    requires |was| == NBUF + 1 && Linked(buf, now)
    requires exists k :: 1 <= k <= NBUF && was[k] == b && now == ToFront(was, k)
    ensures exists k :: 1 <= k <= NBUF && was[k] == b && Fronted(was, now, b, k)
    ensures |buf| == NBUF + 1 && buf[NBUF].next == b
  {
    var k :| 1 <= k <= NBUF && was[k] == b && now == ToFront(was, k);
    assert Without(was, k)[1..] == was[1..k] + was[k + 1..];
    assert Fronted(was, now, b, k);
    assert LinkAt(buf, now, 0);
  }

  lemma ToFrontHas(ring: seq<nat>, k: nat, c: nat)
    requires 1 <= k < |ring| && c in ring
    ensures c in ToFront(ring, k)
  {
    var i :| 0 <= i < |ring| && ring[i] == c;
    var r := ToFront(ring, k);
    assert r[if i == 0 then 0 else if i == k then 1 else if i < k then i + 1 else i] == c;
  }

  /** Unlinking the buffer at position `k` and pushing it gives the list `ToFront`. */
  lemma RelinkOk(buf: seq<Buf>, ring: seq<nat>, k: nat)
    requires Linked(buf, ring) && 1 <= k <= NBUF
    ensures buf[ring[k]].next < |buf| && buf[ring[k]].prev < |buf| && ring[k] < NBUF
    ensures Unlink(buf, ring[k])[HEAD].next < |buf|
    ensures Linked(PushFront(Unlink(buf, ring[k]), ring[k]), ToFront(ring, k))
  {
    UnlinkChain(buf, ring, k);
    WithoutSlots(ring, k);
    PushChain(Unlink(buf, ring[k]), Without(ring, k), ring[k]);
    forall c | 0 <= c <= NBUF ensures c in ToFront(ring, k) {
      ToFrontHas(ring, k, c);
    }
  }

  lemma Position(buf: seq<Buf>, ring: seq<nat>, b: nat) returns (k: nat)
    requires Linked(buf, ring) && b < NBUF
    ensures 1 <= k <= NBUF && |ring| == NBUF + 1 && ring[k] == b
  {
    assert b in ring;
    k :| 0 <= k <= NBUF && ring[k] == b;
  }

  lemma SameLinks(buf: seq<Buf>, buf': seq<Buf>, ring: seq<nat>)
    requires Linked(buf, ring) && |buf'| == |buf|
    requires forall i :: 0 <= i <= NBUF ==> buf'[i].next == buf[i].next && buf'[i].prev == buf[i].prev
    ensures Linked(buf', ring)
  {
    forall i | 0 <= i <= NBUF ensures LinkAt(buf', ring, i) {
      assert LinkAt(buf, ring, i);
    }
  }

  /** The list order after buffers 0..b were inserted at the head one by one. */
  ghost function Descending(b: nat): (order: seq<nat>)
    ensures |order| == b + 1
  {
    seq(b + 1, i => if i == 0 then HEAD else if i <= b then b - i else 0)
  }

  lemma DescendingPush(b: nat)
    requires b < NBUF
    ensures b !in Descending(b)
    ensures Descending(b + 1) == [HEAD, b] + Descending(b)[1..]
  {
  }

  lemma DescendingAll()
    ensures forall c :: 0 <= c <= NBUF ==> c in Descending(NBUF)
  {
    forall c | 0 <= c <= NBUF ensures c in Descending(NBUF) {
      assert Descending(NBUF)[if c == HEAD then 0 else NBUF - c] == c;
    }
  }

  // ---- Keys and contents

  /** `slot` tells which buffer a block is assigned to. A buffer is assigned once bget gave
      it a device; before that its key is (0,0) and it is idle. */
  ghost predicate Keyed(buf: seq<Buf>, slot: map<uint32, nat>, size: nat) {
    && |buf| == NBUF + 1
    && (forall i :: 0 <= i < NBUF ==>
         if buf[i].dev == 0 then buf[i].refcnt == 0 && !buf[i].locked && !buf[i].valid && !buf[i].dirty
         else
           && buf[i].dev == ROOTDEV && buf[i].blockno < size && (buf[i].valid || buf[i].locked)
           && buf[i].blockno in slot && slot[buf[i].blockno] == i)
    && (forall b :: b in slot ==> slot[b] < NBUF && buf[slot[b]].Holds(b))
    && (forall i :: 0 <= i < NBUF && buf[i].locked ==> buf[i].refcnt > 0)
    && (forall i :: 0 <= i < NBUF && buf[i].dirty ==> buf[i].valid)
  }

  /** Each block has at most one buffer, among those that bget has assigned. */
  lemma OneBufferPerBlock(buf: seq<Buf>, slot: map<uint32, nat>, size: nat, i: nat, j: nat)
    requires Keyed(buf, slot, size) && i < NBUF && j < NBUF
    requires buf[i].dev != 0 && buf[i].dev == buf[j].dev && buf[i].blockno == buf[j].blockno
    ensures i == j
  {
    assert slot[buf[i].blockno] == i;
  }

  /** Valid buffers show the logical value; the disk shows it for every block without a
      dirty or locked buffer. */
  ghost predicate Coherent(buf: seq<Buf>, slot: map<uint32, nat>, disk: seq<Block>, logical: seq<Block>)
    requires Keyed(buf, slot, |disk|) && |logical| == |disk|
  {
    && (forall i :: 0 <= i < NBUF && buf[i].valid ==> buf[i].data == logical[buf[i].blockno])
    && (forall b :: 0 <= b < |disk| && disk[b] != logical[b] ==>
         b in slot && buf[slot[b]].valid && buf[slot[b]].Pins())
  }

  lemma CoherentHit(buf: seq<Buf>, slot: map<uint32, nat>, disk: seq<Block>, logical: seq<Block>, b: nat)
    requires Keyed(buf, slot, |disk|) && |logical| == |disk| && b < NBUF
    requires Coherent(buf, slot, disk, logical) && buf[b].dev == ROOTDEV
    ensures Keyed(buf[b := buf[b].Grab()], slot, |disk|) && Coherent(buf[b := buf[b].Grab()], slot, disk, logical)
    ensures buf[b].valid ==> buf[b].blockno < |disk| && buf[b].data == logical[buf[b].blockno]
  {
  }

  ghost function Reassign(buf: seq<Buf>, slot: map<uint32, nat>, b: nat, blockno: uint32): map<uint32, nat>
    requires b < |buf|
  {
    if buf[b].dev == 0 then slot[blockno := b] else (slot - {buf[b].blockno})[blockno := b]
  }

  /** Recycling an idle buffer for a block that has none. */
  lemma KeyedMiss(buf: seq<Buf>, slot: map<uint32, nat>, size: nat, b: nat, blockno: uint32, got: Buf)
    requires Keyed(buf, slot, size) && b < NBUF && blockno < size
    requires buf[b].Evictable() && blockno !in slot
    requires got.Holds(blockno) && !got.dirty && got.locked && got.refcnt > 0
    ensures Keyed(buf[b := got], Reassign(buf, slot, b, blockno), size)
  {
  }

  /** It loses nothing: the disk has the old contents, and it has the contents of the block
      that is read in their place. */
  lemma CoherentMiss(buf: seq<Buf>, slot: map<uint32, nat>, disk: seq<Block>, logical: seq<Block>, b: nat,
                     blockno: uint32)
    requires Keyed(buf, slot, |disk|) && |logical| == |disk| && b < NBUF && blockno < |disk|
    requires Coherent(buf, slot, disk, logical) && buf[b].Evictable() && blockno !in slot
    ensures
      var buf' := buf[b := buf[b].Recycle(blockno).(data := disk[blockno], valid := true)];
      var slot' := Reassign(buf, slot, b, blockno);
      disk[blockno] == logical[blockno] && Keyed(buf', slot', |disk|) && Coherent(buf', slot', disk, logical)
  {
    KeyedMiss(buf, slot, |disk|, b, blockno, buf[b].Recycle(blockno).(data := disk[blockno], valid := true));
  }

  lemma CoherentStore(buf: seq<Buf>, slot: map<uint32, nat>, disk: seq<Block>, logical: seq<Block>, b: nat, data: Block)
    requires Keyed(buf, slot, |disk|) && |logical| == |disk| && b < NBUF
    requires Coherent(buf, slot, disk, logical) && buf[b].valid && buf[b].locked
    ensures Keyed(buf[b := buf[b].(data := data)], slot, |disk|)
    ensures Coherent(buf[b := buf[b].(data := data)], slot, disk, logical[buf[b].blockno := data])
  {
  }

  lemma CoherentPin(buf: seq<Buf>, slot: map<uint32, nat>, disk: seq<Block>, logical: seq<Block>, b: nat)
    requires Keyed(buf, slot, |disk|) && |logical| == |disk| && b < NBUF
    requires Coherent(buf, slot, disk, logical) && buf[b].valid && buf[b].locked
    ensures Keyed(buf[b := buf[b].(dirty := true)], slot, |disk|)
    ensures Coherent(buf[b := buf[b].(dirty := true)], slot, disk, logical)
  {
  }

  lemma CoherentWrite(buf: seq<Buf>, slot: map<uint32, nat>, disk: seq<Block>, logical: seq<Block>, b: nat)
    requires Keyed(buf, slot, |disk|) && |logical| == |disk| && b < NBUF
    requires Coherent(buf, slot, disk, logical) && buf[b].valid && buf[b].locked
    ensures Keyed(buf[b := buf[b].(dirty := false)], slot, |disk|)
    ensures Coherent(buf[b := buf[b].(dirty := false)], slot, disk[buf[b].blockno := buf[b].data], logical)
  {
  }

  lemma CoherentRelease(buf: seq<Buf>, slot: map<uint32, nat>, disk: seq<Block>, logical: seq<Block>, b: nat)
    requires Keyed(buf, slot, |disk|) && |logical| == |disk| && b < NBUF
    requires Coherent(buf, slot, disk, logical) && buf[b].valid && buf[b].locked
    requires !buf[b].dirty ==> disk[buf[b].blockno] == buf[b].data
    ensures Keyed(buf[b := buf[b].Drop()], slot, |disk|) && Coherent(buf[b := buf[b].Drop()], slot, disk, logical)
  {
  }

  lemma CoherentLinks(buf: seq<Buf>, buf': seq<Buf>, slot: map<uint32, nat>, disk: seq<Block>, logical: seq<Block>)
    requires Keyed(buf, slot, |disk|) && |logical| == |disk| && |buf'| == |buf|
    requires Coherent(buf, slot, disk, logical)
    requires forall i :: 0 <= i < NBUF ==> buf'[i] == buf[i].At(buf'[i])
    ensures Keyed(buf', slot, |disk|) && Coherent(buf', slot, disk, logical)
  {
  }

  /** binit: a zeroed array, linked front to back by inserting each buffer at the head. */
  method Binit() returns (bs: seq<Buf>)
    ensures Linked(bs, Descending(NBUF))
    ensures forall i :: 0 <= i < NBUF ==>
      bs[i].dev == 0 && bs[i].refcnt == 0 && !bs[i].locked && !bs[i].valid && !bs[i].dirty
  {
    var zero := Buf(0, 0, false, false, false, 0, 0, 0, ZeroBlock);
    bs := seq(NBUF + 1, i => zero);
    bs := SetPrev(bs, HEAD, HEAD);
    bs := SetNext(bs, HEAD, HEAD);
    assert LinkAt(bs, Descending(0), 0);
    var b := 0;
    while b < NBUF
      invariant 0 <= b <= NBUF && |bs| == NBUF + 1
      invariant Chain(bs, Descending(b))
      invariant forall i :: 0 <= i < NBUF ==> bs[i] == zero.At(bs[i])
    {
      DescendingPush(b);
      PushChain(bs, Descending(b), b);
      bs := PushFront(bs, b);
      b := b + 1;
    }
    DescendingAll();
  }

  class Bcache {
    var buf: seq<Buf>
    var disk: seq<Block>
    ghost var ring: seq<nat>
    ghost var slot: map<uint32, nat>
    ghost var logical: seq<Block>         // the block map that clients see
    ghost var trace: seq<seq<Block>>      // every content the disk has had, oldest first

    ghost predicate Valid()
      reads this
    {
      && Linked(buf, ring) && Keyed(buf, slot, |disk|)
      && |logical| == |disk| < 0x1_0000_0000 && Coherent(buf, slot, disk, logical)
      && |trace| > 0 && trace[|trace| - 1] == disk
    }

    ghost predicate HasEvictable()
      requires |buf| == NBUF + 1
      reads this
    {
      exists i :: 0 <= i < NBUF && buf[i].Evictable()
    }

    /** No buffer for block `b` is locked, so acquiresleep does not wait. */
    ghost predicate Unlocked(b: uint32)
      requires Keyed(buf, slot, |disk|)
      reads this
    {
      b in slot ==> !buf[slot[b]].locked
    }

    /** No buffer behind `b` in the list could be recycled. */
    ghost predicate LeastRecent(b: nat)
      requires Linked(buf, ring)
      reads this
    {
      exists k :: 0 < k <= NBUF && ring[k] == b
                  && forall j {:trigger buf[ring[j]]} :: k < j <= NBUF ==> !buf[ring[j]].Evictable()
    }

    constructor (image: seq<Block>)
      requires |image| < 0x1_0000_0000
      ensures Valid() && disk == image && logical == image && trace == [image]
      ensures slot == map[] && ring == Descending(NBUF) && |buf| == NBUF + 1
      ensures forall i :: 0 <= i < NBUF ==> buf[i].refcnt == 0 && !buf[i].locked && !buf[i].dirty
    {
      var bs := Binit();
      buf, disk, logical, trace, ring, slot := bs, image, image, [image], Descending(NBUF), map[];
    }

    /** The buffer assigned to a block, found by walking the list from the front; the
        sentinel when there is none. */
    method Lookup(dev: nat, blockno: uint32) returns (b: nat)
      requires Linked(buf, ring) && dev == ROOTDEV
      ensures b <= NBUF
      ensures b != HEAD ==> buf[b].Holds(blockno)
      ensures b == HEAD ==> forall i :: 0 <= i < NBUF ==> !buf[i].Holds(blockno)
    {
      b := buf[HEAD].next;
      ghost var k := 1;
      assert LinkAt(buf, ring, 0);
      while b != HEAD
        invariant 1 <= k <= NBUF + 1 && b == if k == NBUF + 1 then HEAD else ring[k]
        invariant forall j {:trigger buf[ring[j]]} :: 0 < j < k ==> !buf[ring[j]].Holds(blockno)
        decreases NBUF + 1 - k
      {
        if buf[b].dev == dev && buf[b].blockno == blockno {
          return;
        }
        assert LinkAt(buf, ring, k);
        b := buf[b].next;
        k := k + 1;
      }
      forall i | 0 <= i < NBUF ensures !buf[i].Holds(blockno) {
        assert i in ring;
      }
    }

    /** The least recently used buffer that is neither held nor pinned, found by walking
        the list from the back; the sentinel when every buffer is busy. */
    method Victim() returns (b: nat)
      requires Linked(buf, ring)
      ensures b <= NBUF
      ensures b != HEAD ==> buf[b].Evictable() && LeastRecent(b)
      ensures b == HEAD <==> !HasEvictable()
    {
      b := buf[HEAD].prev;
      ghost var k := NBUF;
      assert LinkAt(buf, ring, 0);
      while b != HEAD
        invariant 0 <= k <= NBUF && b == ring[k]
        invariant forall j {:trigger buf[ring[j]]} :: k < j <= NBUF ==> !buf[ring[j]].Evictable()
        decreases k
      {
        if buf[b].refcnt == 0 && !buf[b].dirty {
          return;
        }
        assert LinkAt(buf, ring, k);
        b := buf[b].prev;
        k := k - 1;
      }
      forall i | 0 <= i < NBUF ensures !buf[i].Evictable() {
        assert i in ring;
      }
    }

    /** bget: the cached buffer, or else the least recently used one that nobody holds and
        the log does not pin; in both cases locked. */
    method Bget(dev: nat, blockno: uint32) returns (r: Outcome<nat>)
      requires Valid() && dev == ROOTDEV && blockno < |disk| && Unlocked(blockno)
      modifies this`buf, this`slot
      ensures r.Panic? <==> blockno !in old(slot) && !old(HasEvictable())
      ensures r.Panic? ==> buf == old(buf) && slot == old(slot)
      ensures r.Ok? ==> r.value < NBUF && Linked(buf, ring) && Keyed(buf, slot, |disk|)
      ensures r.Ok? && blockno in old(slot) ==>
        && blockno in slot && r.value == slot[blockno] && slot == old(slot)
        && buf == old(buf)[r.value := old(buf[r.value]).Grab()]
      ensures r.Ok? && blockno !in old(slot) ==>
        && old(buf[r.value].Evictable()) && old(LeastRecent(r.value))
        && buf == old(buf)[r.value := old(buf[r.value]).Recycle(blockno)]
        && slot == Reassign(old(buf), old(slot), r.value, blockno)
    {
      var b := Lookup(dev, blockno);
      if b != HEAD {
        CoherentHit(buf, slot, disk, logical, b);
        buf := buf[b := buf[b].Grab()];
        SameLinks(old(buf), buf, ring);
        return Ok(b);
      }
      b := Victim();
      if b != HEAD {
        KeyedMiss(buf, slot, |disk|, b, blockno, buf[b].Recycle(blockno));
        slot := Reassign(buf, slot, b, blockno);
        buf := buf[b := buf[b].Recycle(blockno)];
        SameLinks(old(buf), buf, ring);
        return Ok(b);
      }
      r := Panic;
    }

    /** bread: a locked buffer that shows the block's logical contents, whatever was
        evicted or written in between. */
    method Bread(dev: nat, blockno: uint32) returns (r: Outcome<nat>)
      requires Valid() && dev == ROOTDEV && blockno < |disk| && Unlocked(blockno)
      modifies this`buf, this`slot
      ensures Valid()
      ensures r.Panic? <==> blockno !in old(slot) && !old(HasEvictable())
      ensures r.Panic? ==> buf == old(buf) && slot == old(slot)
      ensures r.Ok? ==>
        && r.value < NBUF && blockno in slot && slot[blockno] == r.value
        && buf[r.value].locked && buf[r.value].valid && buf[r.value].data == logical[blockno]
        && buf == old(buf)[r.value := buf[r.value]]
      ensures r.Ok? && blockno in old(slot) ==>
        slot == old(slot) && buf[r.value] == old(buf[r.value]).Grab()
      ensures r.Ok? && blockno !in old(slot) ==>
        && old(buf[r.value].Evictable()) && old(LeastRecent(r.value))
        && buf[r.value].refcnt == 1 && !buf[r.value].dirty
        && slot == Reassign(old(buf), old(slot), r.value, blockno)
    {
      hide Linked, Coherent;
      r := Bget(dev, blockno);
      if r.Panic? {
        return;
      }
      var b := r.value;
      if !buf[b].valid {
        CoherentMiss(old(buf), old(slot), disk, logical, b, blockno);
        buf := buf[b := buf[b].(data := disk[blockno], valid := true)];  // iderw
        SameLinks(old(buf), buf, ring);
        assert buf == old(buf)[b := old(buf[b]).Recycle(blockno).(data := disk[blockno], valid := true)];
      } else {
        CoherentHit(old(buf), old(slot), disk, logical, b);
      }
    }

    /** The client changes the contents of a buffer it holds. */
    method Store(b: nat, data: Block)
      requires Valid() && b < NBUF && buf[b].locked && buf[b].valid
      modifies this`buf, this`logical
      ensures Valid()
      ensures buf == old(buf)[b := old(buf[b]).(data := data)]
      ensures logical == old(logical)[buf[b].blockno := data]
    {
      CoherentStore(buf, slot, disk, logical, b, data);
      buf := buf[b := buf[b].(data := data)];
      logical := logical[buf[b].blockno := data];
      SameLinks(old(buf), buf, ring);
    }

    /** log_write's `b->flags |= B_DIRTY`: keep the buffer in memory until it is written. */
    method Pin(b: nat)
      requires Valid() && b < NBUF && buf[b].locked && buf[b].valid
      modifies this`buf
      ensures Valid()
      ensures buf == old(buf)[b := old(buf[b]).(dirty := true)]
    {
      CoherentPin(buf, slot, disk, logical, b);
      buf := buf[b := buf[b].(dirty := true)];
      SameLinks(old(buf), buf, ring);
    }

    /** bwrite: one atomic block write; the buffer is clean afterwards. */
    method Bwrite(b: nat)
      requires Valid() && b < NBUF && buf[b].locked && buf[b].valid
      modifies this`buf, this`disk, this`trace
      ensures Valid()
      ensures buf == old(buf)[b := old(buf[b]).(dirty := false)]
      ensures disk == old(disk)[buf[b].blockno := buf[b].data]
      ensures trace == old(trace) + [disk]
    {
      CoherentWrite(buf, slot, disk, logical, b);
      disk := disk[buf[b].blockno := buf[b].data];                        // iderw
      buf := buf[b := buf[b].(dirty := false, valid := true)];
      trace := trace + [disk];
      SameLinks(old(buf), buf, ring);
      assert buf == old(buf)[b := old(buf[b]).(dirty := false)];
    }

    /** The relinking in brelse: `b` becomes the most recently used buffer. */
    method MoveToFront(b: nat)
      requires Valid() && b < NBUF
      modifies this`buf, this`ring
      ensures Valid()
      ensures forall i :: 0 <= i < NBUF ==> buf[i] == old(buf[i]).At(buf[i])
      ensures exists k :: 1 <= k <= NBUF && old(ring)[k] == b && ring == ToFront(old(ring), k)
    {
      ghost var k := Position(buf, ring, b);
      hide Linked, Keyed, Coherent;
      RelinkOk(buf, ring, k);
      buf := PushFront(Unlink(buf, b), b);
      ring := ToFront(ring, k);
      CoherentLinks(old(buf), buf, slot, disk, logical);
    }

    /** brelse: drop the lock and the reference; with the last reference the buffer moves
        to the front of the list. A clean buffer must not have been changed. */
    method Brelse(b: nat)
      requires Valid() && b < NBUF && buf[b].locked && buf[b].valid
      requires !buf[b].dirty ==> disk[buf[b].blockno] == buf[b].data
      modifies this`buf, this`ring
      ensures Valid()
      ensures forall i :: 0 <= i < NBUF ==>
        buf[i] == (if i == b then old(buf[i]).Drop() else old(buf[i])).At(buf[i])
      ensures if old(buf[b].refcnt) > 1 then ring == old(ring)
              else exists k :: 1 <= k <= NBUF && old(ring)[k] == b && Fronted(old(ring), ring, b, k)
      ensures |buf| == NBUF + 1 && (old(buf[b].refcnt) == 1 ==> buf[NBUF].next == b)
    {
      CoherentRelease(buf, slot, disk, logical, b);
      buf := buf[b := buf[b].Drop()];                       // releasesleep, b->refcnt--
      SameLinks(old(buf), buf, ring);
      if buf[b].refcnt == 0 {
        MoveToFront(b);
        FirstIs(buf, old(ring), ring, b);
      }
    }
  }
}
