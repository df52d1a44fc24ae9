/** The allocator's memory as seen by umalloc.c, with addresses counted in header units.

    Every unit obtained from sbrk belongs to exactly one block: a free block on the circular
    list, or a live one. */
module HeapSpec {
  datatype Header = Header(ptr: nat, size: nat)

  /** `fl` is the free list from `base` on in address order, `own` the block of each unit,
      `live` the blocks handed out, and everything lies below `brk`. */
  datatype Heap = Heap(mem: map<nat, Header>, fl: seq<nat>, own: map<nat, nat>, live: set<nat>, brk: nat)

  function Next(n: nat, i: nat): nat { if i + 1 == n then 0 else i + 1 }

  // ---- The invariant, piece by piece

  /** Node `i` links to node `i + 1`, the last one to the first; only `base` has size 0. */
  ghost predicate NodeOk(h: Heap, i: nat)
    requires i < |h.fl|
  {
    && h.fl[i] in h.mem && h.mem[h.fl[i]].ptr == h.fl[Next(|h.fl|, i)]
    && (h.mem[h.fl[i]].size == 0 <==> i == 0)
  }

  ghost predicate Ascending(fl: seq<nat>) {
    forall i, j :: 0 <= i < j < |fl| ==> fl[i] < fl[j]
  }

  predicate IsBlock(h: Heap, a: nat) {
    a in h.live || a in h.fl[if |h.fl| == 0 then 0 else 1..]
  }

  /** Block `a` owns exactly the units of its extent. */
  ghost predicate Covers(h: Heap, a: nat) {
    && a in h.mem && h.mem[a].size > 0
    && forall u :: a <= u < a + h.mem[a].size ==> u in h.own && h.own[u] == a
  }

  ghost predicate UnitOk(h: Heap, base: nat, u: nat)
    requires u in h.own
  {
    && base < u < h.brk && IsBlock(h, h.own[u])
    && h.own[u] in h.mem && h.own[u] <= u < h.own[u] + h.mem[h.own[u]].size
  }

  ghost predicate Shaped(h: Heap, base: nat) {
    && |h.fl| > 0 && h.fl[0] == base < h.brk && Ascending(h.fl)
    && (forall i :: 0 <= i < |h.fl| ==> NodeOk(h, i))
    && (forall a :: IsBlock(h, a) ==> Covers(h, a))
    && (forall u :: u in h.own ==> UnitOk(h, base, u))
    && (forall a :: a in h.live ==> a !in h.fl)
  }

  /** Free block `i` does not touch the next one. */
  ghost predicate Tight(h: Heap, i: nat)
    requires i + 1 < |h.fl|
  {
    h.fl[i] in h.mem && h.fl[i] + h.mem[h.fl[i]].size != h.fl[i + 1]
  }

  /** No two free blocks touch, except perhaps behind positions `x` and `y`. */
  ghost predicate CoalescedBut(h: Heap, x: int, y: int) {
    forall i :: 0 <= i < |h.fl| - 1 && i != x && i != y ==> Tight(h, i)
  }

  ghost predicate Coalesced(h: Heap) { CoalescedBut(h, -1, -1) }

  lemma BlockAt(h: Heap, base: nat, i: nat)
    requires Shaped(h, base) && 0 < i < |h.fl|
    ensures IsBlock(h, h.fl[i]) && Covers(h, h.fl[i]) && base < h.fl[i] < h.brk
  {
    assert h.fl[i] == h.fl[1..][i - 1];
    assert Covers(h, h.fl[i]);
    assert UnitOk(h, base, h.fl[i]);
  }

  /** Free blocks do not overlap: each ends at or before the next. */
  lemma NoOverlap(h: Heap, base: nat, i: nat)
    requires Shaped(h, base) && i + 1 < |h.fl|
    ensures h.fl[i] in h.mem && h.fl[i] + h.mem[h.fl[i]].size <= h.fl[i + 1]
  {
    assert NodeOk(h, i);
    BlockAt(h, base, i + 1);
    assert h.own[h.fl[i + 1]] == h.fl[i + 1];
    if i > 0 { BlockAt(h, base, i); }
  }

  // ---- free

  ghost function Insert(h: Heap, bp: nat, j: nat): (g: Heap)
    requires j < |h.fl| && bp in h.mem && h.fl[j] in h.mem
  {
    var m := h.mem[bp := h.mem[bp].(ptr := h.fl[Next(|h.fl|, j)])];
    Heap(m[h.fl[j] := m[h.fl[j]].(ptr := bp)], h.fl[..j + 1] + [bp] + h.fl[j + 1..], h.own, h.live - {bp}, h.brk)
  }

  /** Position `j` is where `bp` belongs. */
  ghost predicate Slot(h: Heap, bp: nat, j: nat) {
    j < |h.fl| && h.fl[j] < bp && (j + 1 < |h.fl| ==> bp < h.fl[j + 1])
  }

  lemma InsertAscending(fl: seq<nat>, bp: nat, j: nat)
    requires Ascending(fl) && j < |fl| && fl[j] < bp && (j + 1 < |fl| ==> bp < fl[j + 1])
    ensures Ascending(fl[..j + 1] + [bp] + fl[j + 1..])
  {
    var g := fl[..j + 1] + [bp] + fl[j + 1..];
    forall a, b | 0 <= a < b < |g| ensures g[a] < g[b] {
      if a == j + 1 && j + 1 < |fl| && b > j + 2 { assert fl[j + 1] < fl[b - 1]; }
      if b == j + 1 && a < j { assert fl[a] < fl[j]; }
    }
  }

  lemma InsertNode(h: Heap, base: nat, bp: nat, j: nat, i: nat)
    requires Shaped(h, base) && bp in h.live && Slot(h, bp, j) && i <= |h.fl|
    ensures h.fl[j] in h.mem && bp in h.mem && NodeOk(Insert(h, bp, j), i)
  {
    assert IsBlock(h, bp) && Covers(h, bp) && NodeOk(h, j);
    var k := if i <= j then i else i - 1;
    assert NodeOk(h, k);
    assert bp !in h.fl;
  }

  lemma InsertBlocks(h: Heap, base: nat, bp: nat, j: nat, a: nat)
    requires Shaped(h, base) && bp in h.live && Slot(h, bp, j) && bp in h.mem && h.fl[j] in h.mem
    ensures IsBlock(Insert(h, bp, j), a) <==> IsBlock(h, a)
  {
    var g := Insert(h, bp, j);
    assert g.fl[1..] == h.fl[1..][..j] + [bp] + h.fl[1..][j..];
    assert h.fl[1..] == h.fl[1..][..j] + h.fl[1..][j..];
  }

  lemma InsertValid(h: Heap, base: nat, bp: nat, j: nat)
    requires Shaped(h, base) && bp in h.live && Slot(h, bp, j)
    ensures bp in h.mem && h.fl[j] in h.mem
    ensures Shaped(Insert(h, bp, j), base)
  {
    InsertNode(h, base, bp, j, 0);
    var g := Insert(h, bp, j);
    InsertAscending(h.fl, bp, j);
    forall i | 0 <= i < |g.fl| ensures NodeOk(g, i) { InsertNode(h, base, bp, j, i); }
    forall a | IsBlock(g, a) ensures Covers(g, a) {
      InsertBlocks(h, base, bp, j, a);
      assert Covers(h, a);
    }
    forall u | u in g.own ensures UnitOk(g, base, u) {
      assert UnitOk(h, base, u);
      InsertBlocks(h, base, bp, j, g.own[u]);
    }
  }

  lemma InsertCoalesced(h: Heap, base: nat, bp: nat, j: nat)
    requires Shaped(h, base) && bp in h.live && Slot(h, bp, j) && Coalesced(h)
    ensures bp in h.mem && h.fl[j] in h.mem
    ensures CoalescedBut(Insert(h, bp, j), j, j + 1)
  {
    InsertNode(h, base, bp, j, 0);
    var g := Insert(h, bp, j);
    forall i | 0 <= i < |g.fl| - 1 && i != j && i != j + 1 ensures Tight(g, i) {
      assert Tight(h, if i < j then i else i - 1);
    }
  }

  lemma DropAscending(fl: seq<nat>, k: nat)
    requires Ascending(fl) && 0 < k < |fl|
    ensures Ascending(fl[..k] + fl[k + 1..])
    ensures forall a :: a in fl[..k] + fl[k + 1..] <==> a in fl && a != fl[k]
  {
    var g := fl[..k] + fl[k + 1..];
    assert fl == fl[..k] + [fl[k]] + fl[k + 1..];
    assert fl[k] !in g;
  }

  /** The second of two touching free blocks becomes part of the first. */
  ghost function Absorb(h: Heap, i: nat): (g: Heap)
    requires i + 1 < |h.fl| && h.fl[i] in h.mem && h.fl[i + 1] in h.mem
  {
    Heap(h.mem[h.fl[i] := Header(h.mem[h.fl[i + 1]].ptr, h.mem[h.fl[i]].size + h.mem[h.fl[i + 1]].size)],
         h.fl[..i + 1] + h.fl[i + 2..],
         map u | u in h.own :: if h.own[u] == h.fl[i + 1] then h.fl[i] else h.own[u],
         h.live, h.brk)
  }

  lemma AbsorbNode(h: Heap, base: nat, i: nat, k: nat)
    requires Shaped(h, base) && 0 < i && i + 1 < |h.fl| && k < |h.fl| - 1
    ensures h.fl[i] in h.mem && h.fl[i + 1] in h.mem && NodeOk(Absorb(h, i), k)
  {
    assert NodeOk(h, i) && NodeOk(h, i + 1);
    assert NodeOk(h, if k <= i then k else k + 1);
  }

  lemma AbsorbBlocks(h: Heap, base: nat, i: nat, a: nat)
    requires Shaped(h, base) && 0 < i && i + 1 < |h.fl| && h.fl[i] in h.mem && h.fl[i + 1] in h.mem
    ensures IsBlock(Absorb(h, i), a) <==> IsBlock(h, a) && a != h.fl[i + 1]
  {
    var g := Absorb(h, i);
    assert g.fl[1..] == h.fl[1..][..i] + h.fl[1..][i + 1..];
    assert h.fl[1..] == h.fl[1..][..i] + [h.fl[i + 1]] + h.fl[1..][i + 1..];
    assert h.fl[i + 1] in h.fl && h.fl[i + 1] !in h.live;
  }

  lemma AbsorbValid(h: Heap, base: nat, i: nat)
    requires Shaped(h, base) && 0 < i && i + 1 < |h.fl|
    requires h.fl[i] in h.mem && h.fl[i] + h.mem[h.fl[i]].size == h.fl[i + 1]
    ensures h.fl[i + 1] in h.mem && Shaped(Absorb(h, i), base)
  {
    AbsorbNode(h, base, i, 0);
    BlockAt(h, base, i);
    BlockAt(h, base, i + 1);
    var g := Absorb(h, i);
    DropAscending(h.fl, i + 1);
    forall k | 0 <= k < |g.fl| ensures NodeOk(g, k) { AbsorbNode(h, base, i, k); }
    forall a | IsBlock(g, a) ensures Covers(g, a) {
      AbsorbBlocks(h, base, i, a);
      assert Covers(h, a);
    }
    forall u | u in g.own ensures UnitOk(g, base, u) {
      assert UnitOk(h, base, u);
      AbsorbBlocks(h, base, i, g.own[u]);
    }
  }

  lemma AbsorbCoalesced(h: Heap, base: nat, i: nat, x: int)
    requires Shaped(h, base) && 0 < i && i + 1 < |h.fl| && h.fl[i] in h.mem && h.fl[i + 1] in h.mem
    requires h.fl[i] + h.mem[h.fl[i]].size == h.fl[i + 1]
    requires CoalescedBut(h, x, i) && x < i
    ensures CoalescedBut(Absorb(h, i), x, x)
  {
    var g := Absorb(h, i);
    forall k | 0 <= k < |g.fl| - 1 && k != x ensures Tight(g, k) {
      assert Tight(h, if k < i then k else k + 1);
      if k < i - 1 { assert h.fl[k] < h.fl[i]; }
    }
  }

  // ---- malloc

  /** An exact fit leaves the list. */
  ghost function Remove(h: Heap, k: nat): (g: Heap)
    requires 0 < k < |h.fl| && h.fl[k] in h.mem && h.fl[k - 1] in h.mem
  {
    Heap(h.mem[h.fl[k - 1] := h.mem[h.fl[k - 1]].(ptr := h.mem[h.fl[k]].ptr)],
         h.fl[..k] + h.fl[k + 1..], h.own, h.live + {h.fl[k]}, h.brk)
  }

  lemma RemoveNode(h: Heap, base: nat, k: nat, i: nat)
    requires Shaped(h, base) && 0 < k < |h.fl| && i < |h.fl| - 1
    ensures h.fl[k] in h.mem && h.fl[k - 1] in h.mem && NodeOk(Remove(h, k), i)
  {
    assert NodeOk(h, k) && NodeOk(h, k - 1);
    assert NodeOk(h, if i < k then i else i + 1);
  }

  lemma RemoveBlocks(h: Heap, base: nat, k: nat, a: nat)
    requires Shaped(h, base) && 0 < k < |h.fl| && h.fl[k] in h.mem && h.fl[k - 1] in h.mem
    ensures IsBlock(Remove(h, k), a) <==> IsBlock(h, a)
  {
    var g := Remove(h, k);
    assert g.fl[1..] == h.fl[1..][..k - 1] + h.fl[1..][k..];
    assert h.fl[1..] == h.fl[1..][..k - 1] + [h.fl[k]] + h.fl[1..][k..];
  }

  lemma RemoveValid(h: Heap, base: nat, k: nat)
    requires Shaped(h, base) && 0 < k < |h.fl|
    ensures h.fl[k] in h.mem && h.fl[k - 1] in h.mem && Shaped(Remove(h, k), base)
  {
    RemoveNode(h, base, k, 0);
    var g := Remove(h, k);
    DropAscending(h.fl, k);
    forall i | 0 <= i < |g.fl| ensures NodeOk(g, i) { RemoveNode(h, base, k, i); }
    forall a | IsBlock(g, a) ensures Covers(g, a) {
      RemoveBlocks(h, base, k, a);
      assert Covers(h, a);
    }
    forall u | u in g.own ensures UnitOk(g, base, u) {
      assert UnitOk(h, base, u);
      RemoveBlocks(h, base, k, g.own[u]);
    }
  }

  lemma RemoveCoalesced(h: Heap, base: nat, k: nat)
    requires Shaped(h, base) && 0 < k < |h.fl| && Coalesced(h) && h.fl[k] in h.mem && h.fl[k - 1] in h.mem
    ensures Coalesced(Remove(h, k))
  {
    var g := Remove(h, k);
    if k < |h.fl| - 1 {
      NoOverlap(h, base, k - 1);
      assert h.fl[k] < h.fl[k + 1];
    }
    hide Shaped;
    forall i | 0 <= i < |g.fl| - 1 ensures Tight(g, i) { assert Tight(h, if i < k then i else i + 1); }
  }

  /** The tail of a larger block is cut off; `junk` is the link field found there. */
  ghost function Split(h: Heap, k: nat, n: nat, junk: nat): (g: Heap)
    requires 0 < k < |h.fl| && h.fl[k] in h.mem && 0 < n < h.mem[h.fl[k]].size
  {
    var a, s := h.fl[k], h.mem[h.fl[k]].size;
    var q := a + s - n;
    Heap(h.mem[a := Header(h.mem[a].ptr, s - n)][q := Header(junk, n)], h.fl,
         map u | u in h.own :: if q <= u < a + s then q else h.own[u], h.live + {q}, h.brk)
  }

  lemma SplitFresh(h: Heap, base: nat, k: nat, n: nat)
    requires Shaped(h, base) && 0 < k < |h.fl| && h.fl[k] in h.mem && 0 < n < h.mem[h.fl[k]].size
    ensures
      var q := h.fl[k] + h.mem[h.fl[k]].size - n;
      !IsBlock(h, q) && q !in h.fl && q in h.own && h.own[q] == h.fl[k] != q
  {
    var q := h.fl[k] + h.mem[h.fl[k]].size - n;
    BlockAt(h, base, k);
    assert h.own[q] == h.fl[k];
    assert IsBlock(h, q) ==> Covers(h, q);
    assert base < q;
    assert h.fl[0] != q && forall i :: 0 < i < |h.fl| ==> h.fl[i] == h.fl[1..][i - 1];
  }

  lemma SplitValid(h: Heap, base: nat, k: nat, n: nat, junk: nat)
    requires Shaped(h, base) && 0 < k < |h.fl| && h.fl[k] in h.mem && 0 < n < h.mem[h.fl[k]].size
    ensures Shaped(Split(h, k, n, junk), base)
  {
    var g := Split(h, k, n, junk);
    SplitFresh(h, base, k, n);
    BlockAt(h, base, k);
    forall i | 0 <= i < |g.fl| ensures NodeOk(g, i) { assert NodeOk(h, i); }
    forall a | IsBlock(g, a) ensures Covers(g, a) { SplitCovers(h, base, k, n, junk, a); }
    forall u | u in g.own ensures UnitOk(g, base, u) { SplitUnit(h, base, k, n, junk, u); }
  }

  lemma SplitCovers(h: Heap, base: nat, k: nat, n: nat, junk: nat, a: nat)
    requires Shaped(h, base) && 0 < k < |h.fl| && h.fl[k] in h.mem && 0 < n < h.mem[h.fl[k]].size
    requires IsBlock(Split(h, k, n, junk), a)
    ensures Covers(Split(h, k, n, junk), a)
  {
    SplitFresh(h, base, k, n);
    BlockAt(h, base, k);
    if a != h.fl[k] + h.mem[h.fl[k]].size - n { assert Covers(h, a); }
  }

  lemma SplitUnit(h: Heap, base: nat, k: nat, n: nat, junk: nat, u: nat)
    requires Shaped(h, base) && 0 < k < |h.fl| && h.fl[k] in h.mem && 0 < n < h.mem[h.fl[k]].size
    requires u in Split(h, k, n, junk).own
    ensures UnitOk(Split(h, k, n, junk), base, u)
  {
    SplitFresh(h, base, k, n);
    BlockAt(h, base, k);
    assert UnitOk(h, base, u);
  }

  lemma SplitCoalesced(h: Heap, base: nat, k: nat, n: nat, junk: nat)
    requires Shaped(h, base) && 0 < k < |h.fl| && h.fl[k] in h.mem && 0 < n < h.mem[h.fl[k]].size && Coalesced(h)
    ensures Coalesced(Split(h, k, n, junk))
  {
    var g := Split(h, k, n, junk);
    SplitFresh(h, base, k, n);
    forall i | 0 <= i < |g.fl| - 1 ensures Tight(g, i) {
      assert Tight(h, i);
      NoOverlap(h, base, i);
    }
  }

  // ---- morecore

  ghost function Units(p: nat, n: nat): (r: set<nat>)
    ensures (forall u :: u in r <==> p <= u < p + n) && |r| == n
  {
    if n == 0 then {} else Units(p, n - 1) + {p + n - 1}
  }

  /** sbrk gave the units from `p` on; they start out as one live block. */
  ghost function Grow(h: Heap, p: nat, n: nat, junk: nat): (g: Heap) {
    Heap(h.mem[p := Header(junk, n)], h.fl,
         map u | u in h.own.Keys + Units(p, n) :: if u in h.own then h.own[u] else p, h.live + {p}, p + n)
  }

  lemma AllBelow(h: Heap, base: nat, p: nat)
    requires Shaped(h, base) && h.brk <= p
    ensures forall i :: 0 <= i < |h.fl| ==> h.fl[i] < p
    ensures forall a :: a in h.live ==> a < p
    ensures forall u :: u in h.own ==> u < p
  {
    forall i | 0 < i < |h.fl| ensures h.fl[i] < p { BlockAt(h, base, i); }
    forall a | a in h.live ensures a < p {
      assert IsBlock(h, a) && Covers(h, a);
      assert UnitOk(h, base, a);
    }
    forall u | u in h.own ensures u < p { assert UnitOk(h, base, u); }
  }

  lemma GrowUnits(h: Heap, p: nat, n: nat, junk: nat, u: nat)
    requires forall v :: v in h.own ==> v < p
    ensures u in Grow(h, p, n, junk).own <==> u in h.own || p <= u < p + n
    ensures u in h.own ==> Grow(h, p, n, junk).own[u] == h.own[u]
    ensures p <= u < p + n ==> Grow(h, p, n, junk).own[u] == p
  {
  }

  lemma GrowCovers(h: Heap, p: nat, n: nat, junk: nat, a: nat)
    requires (forall u :: u in h.own ==> u < p) && n > 0
    requires a == p || Covers(h, a)
    ensures Covers(Grow(h, p, n, junk), a)
  {
    hide Units;
    var g := Grow(h, p, n, junk);
    assert a != p ==> g.mem[a] == h.mem[a];
    forall u | a <= u < a + g.mem[a].size ensures u in g.own && g.own[u] == a {
      GrowUnits(h, p, n, junk, u);
    }
  }

  lemma GrowUnit(h: Heap, base: nat, p: nat, n: nat, junk: nat, u: nat)
    requires Shaped(h, base) && h.brk <= p && n > 0 && u in Grow(h, p, n, junk).own
    ensures UnitOk(Grow(h, p, n, junk), base, u)
  {
    AllBelow(h, base, p);
    GrowUnits(h, p, n, junk, u);
    if u in h.own { assert UnitOk(h, base, u); }
  }

  lemma GrowNode(h: Heap, base: nat, p: nat, n: nat, junk: nat, i: nat)
    requires Shaped(h, base) && h.brk <= p && i < |h.fl|
    ensures NodeOk(Grow(h, p, n, junk), i)
  {
    hide Units, Covers, UnitOk;
    AllBelow(h, base, p);
    assert NodeOk(h, i);
  }

  lemma GrowValid(h: Heap, base: nat, p: nat, n: nat, junk: nat)
    requires Shaped(h, base) && h.brk <= p && n > 0
    ensures Shaped(Grow(h, p, n, junk), base)
  {
    hide NodeOk, Covers, UnitOk, Units;
    AllBelow(h, base, p);
    var g := Grow(h, p, n, junk);
    forall i | 0 <= i < |g.fl| ensures NodeOk(g, i) { GrowNode(h, base, p, n, junk, i); }
    forall a | IsBlock(g, a) ensures Covers(g, a) {
      assert a == p || IsBlock(h, a);
      GrowCovers(h, p, n, junk, a);
    }
    forall u | u in g.own ensures UnitOk(g, base, u) { GrowUnit(h, base, p, n, junk, u); }
  }

  lemma GrowCoalesced(h: Heap, base: nat, p: nat, n: nat, junk: nat)
    requires Shaped(h, base) && h.brk <= p && n > 0 && Coalesced(h)
    ensures Coalesced(Grow(h, p, n, junk))
  {
    AllBelow(h, base, p);
    var g := Grow(h, p, n, junk);
    forall i | 0 <= i < |g.fl| - 1 ensures Tight(g, i) { assert Tight(h, i); }
  }

  // ---- Conservation

  /** The sizes of the first `k` nodes of the free list together. */
  ghost function FreeSum(h: Heap, k: nat): nat
    requires k <= |h.fl| && forall i :: 0 <= i < |h.fl| ==> h.fl[i] in h.mem
  {
    if k == 0 then 0 else FreeSum(h, k - 1) + h.mem[h.fl[k - 1]].size
  }

  ghost function FreeUnits(h: Heap, k: nat): set<nat>
    requires k <= |h.fl|
  {
    set u | u in h.own && h.own[u] in h.fl[..k]
  }

  ghost function LiveUnits(h: Heap): set<nat> {
    set u | u in h.own && h.own[u] in h.live
  }

  lemma FreeNodes(h: Heap, base: nat)
    requires Shaped(h, base)
    ensures forall i :: 0 <= i < |h.fl| ==> h.fl[i] in h.mem
  {
    forall i | 0 <= i < |h.fl| ensures h.fl[i] in h.mem { assert NodeOk(h, i); }
  }

  /** A free block adds its own extent, and nothing counted before, to the free units. */
  lemma FreeUnitsStep(h: Heap, base: nat, k: nat)
    requires Shaped(h, base) && 0 < k < |h.fl| && h.fl[k] in h.mem
    ensures FreeUnits(h, k + 1) == FreeUnits(h, k) + Units(h.fl[k], h.mem[h.fl[k]].size)
    ensures FreeUnits(h, k) !! Units(h.fl[k], h.mem[h.fl[k]].size)
  {
    hide Units, NodeOk;
    var a := h.fl[k];
    BlockAt(h, base, k);
    var part := h.fl[..k];
    assert h.fl[..k + 1] == part + [a];
    assert a !in part;
    forall u | u in h.own && h.own[u] == a ensures u in Units(a, h.mem[a].size) { assert UnitOk(h, base, u); }
    hide UnitOk, IsBlock;
  }

  lemma NoBaseUnits(h: Heap, base: nat)
    requires Shaped(h, base)
    ensures FreeUnits(h, 1) == {}
  {
    forall u | u in h.own ensures h.own[u] != base {
      assert UnitOk(h, base, u) && NodeOk(h, 0);
    }
  }

  lemma {:induction false} FreeSumCounts(h: Heap, base: nat, k: nat)
    requires Shaped(h, base) && 0 < k <= |h.fl| && forall i :: 0 <= i < |h.fl| ==> h.fl[i] in h.mem
    ensures FreeSum(h, k) == |FreeUnits(h, k)|
  {
    if k == 1 {
      NoBaseUnits(h, base);
      assert NodeOk(h, 0) && FreeSum(h, 0) == 0;
    } else {
      FreeSumCounts(h, base, k - 1);
      FreeUnitsStep(h, base, k - 1);
    }
  }

  /** Every unit is free or live: the sizes on the free list and the units of the live blocks
      add up to all units ever obtained. */
  lemma UnitsConserved(h: Heap, base: nat)
    requires Shaped(h, base)
    ensures forall i :: 0 <= i < |h.fl| ==> h.fl[i] in h.mem
    ensures FreeSum(h, |h.fl|) + |LiveUnits(h)| == |h.own|
  {
    hide NodeOk, Covers, FreeSum;
    FreeNodes(h, base);
    FreeSumCounts(h, base, |h.fl|);
    assert h.fl[..|h.fl|] == h.fl;
    var free, live := FreeUnits(h, |h.fl|), LiveUnits(h);
    forall u | u in h.own ensures u in free + live { assert UnitOk(h, base, u); }
    assert h.own.Keys == free + live;
    assert free !! live;
  }
}
