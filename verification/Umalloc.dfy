/** malloc, free and morecore of umalloc.c: the circular, address-ordered, coalescing free list. */
module Umalloc {
  import opened HeapSpec

  datatype Core = NoCore | Core(at: nat)

  const HEADER: nat := 8
  const MINCORE: nat := 4096

  /** The largest request whose size in bytes still fits sbrk's signed argument. */
  const MAXREQUEST: nat := 0x7fff_fff0

  function UnitsFor(nbytes: nat): (n: nat)
    ensures n > 1 || nbytes == 0
    ensures HEADER * (n - 1) >= nbytes > HEADER * (n - 2)
  {
    (nbytes + HEADER - 1) / HEADER + 1
  }

  lemma LargestRequest(nbytes: nat)
    ensures HEADER * UnitsFor(nbytes) <= 0x7fff_ffff <==> nbytes <= MAXREQUEST
  {
  }

  function CoreFor(nu: nat): nat { if nu < MINCORE then MINCORE else nu }

  // ---- What one call does to the heap

  /** No unit of a block that is live before and after has been written. */
  ghost predicate Untouched(h: Heap, g: Heap) {
    forall u :: u in h.own && h.own[u] in h.live && h.own[u] in g.live ==>
                  u in g.own && g.own[u] == h.own[u] && SameUnit(h, g, u)
  }

  ghost predicate SameUnit(h: Heap, g: Heap, u: nat) {
    (u in h.mem <==> u in g.mem) && (u in h.mem ==> g.mem[u] == h.mem[u])
  }

  ghost predicate Fine(h: Heap, base: nat) { Shaped(h, base) && Coalesced(h) }

  /** Block `bp` became free space and nothing else changed hands. */
  ghost predicate FreedBlock(h: Heap, g: Heap, bp: nat) {
    && g.live == h.live - {bp} && g.own.Keys == h.own.Keys && g.brk == h.brk && Untouched(h, g)
    && bp in h.mem && bp in g.own && g.own[bp] in g.fl && g.own[bp] in g.mem && g.mem[g.own[bp]].size >= h.mem[bp].size
  }

  // ---- free

  ghost function MergeUp(h: Heap, i: nat): Heap
    requires i < |h.fl| && h.fl[i] in h.mem && (i + 1 < |h.fl| ==> h.fl[i + 1] in h.mem)
  {
    if i + 1 < |h.fl| && h.fl[i] + h.mem[h.fl[i]].size == h.fl[i + 1] then Absorb(h, i) else h
  }

  lemma NodesIn(h: Heap, base: nat, i: nat)
    requires Shaped(h, base) && i < |h.fl|
    ensures h.fl[i] in h.mem
  {
    assert NodeOk(h, i);
  }

  /** What one merge promises: the space at `bp` stays free and is at least as large. */
  ghost predicate Held(h: Heap, g: Heap, bp: nat) {
    && g.live == h.live && g.own.Keys == h.own.Keys && g.brk == h.brk && Untouched(h, g)
    && bp in h.own && h.own[bp] in h.mem && h.own[bp] in h.fl
    && bp in g.own && g.own[bp] in g.mem && g.own[bp] in g.fl && g.mem[g.own[bp]].size >= h.mem[h.own[bp]].size
  }

  /** A merge writes only headers of free blocks. */
  lemma AbsorbUntouched(h: Heap, i: nat)
    requires i + 1 < |h.fl| && h.fl[i] in h.mem && h.fl[i + 1] in h.mem
    requires h.fl[i] !in h.live && h.fl[i + 1] !in h.live && (h.fl[i] in h.own ==> h.own[h.fl[i]] == h.fl[i])
    ensures Untouched(h, Absorb(h, i))
  {
    var g := Absorb(h, i);
    forall u | u in h.own && h.own[u] in h.live ensures g.own[u] == h.own[u] && SameUnit(h, g, u) {
      assert u != h.fl[i];
    }
  }

  lemma AbsorbSpace(h: Heap, i: nat, bp: nat)
    requires i + 1 < |h.fl| && Ascending(h.fl) && h.fl[i] in h.mem && h.fl[i + 1] in h.mem
    requires bp in h.own && h.own[bp] in h.fl && h.own[bp] in h.mem
    ensures
      var g := Absorb(h, i);
      && bp in g.own && g.own[bp] in g.mem && g.own[bp] in g.fl && g.mem[g.own[bp]].size >= h.mem[h.own[bp]].size
  {
    var g := Absorb(h, i);
    DropAscending(h.fl, i + 1);
    assert g.fl[i] == h.fl[i];
  }

  lemma AbsorbHeld(h: Heap, base: nat, i: nat, bp: nat)
    requires Shaped(h, base) && 0 < i && i + 1 < |h.fl| && h.fl[i] in h.mem && h.fl[i + 1] in h.mem
    requires bp in h.own && h.own[bp] in h.fl && h.own[bp] in h.mem
    ensures Held(h, Absorb(h, i), bp)
  {
    BlockAt(h, base, i);
    assert h.fl[i] in h.fl && h.fl[i + 1] in h.fl;
    assert h.fl[i] !in h.live && h.fl[i + 1] !in h.live;
    assert h.own[h.fl[i]] == h.fl[i];
    AbsorbSpace(h, i, bp);
    hide Shaped, Covers, IsBlock, Ascending, Untouched;
    AbsorbUntouched(h, i);
  }

  lemma InsertFrees(h: Heap, base: nat, bp: nat, j: nat)
    requires Shaped(h, base) && bp in h.live && Slot(h, bp, j) && bp in h.mem && h.fl[j] in h.mem
    ensures FreedBlock(h, Insert(h, bp, j), bp)
  {
    var g := Insert(h, bp, j);
    assert IsBlock(h, bp) && Covers(h, bp);
    assert h.own[bp] == bp;
    assert g.fl[j + 1] == bp;
    assert h.fl[j] in h.fl && h.fl[j] !in h.live;
    if j > 0 { BlockAt(h, base, j); }
    hide NodeOk, Ascending;
    forall u | u in h.own && h.own[u] in h.live && h.own[u] in g.live ensures SameUnit(h, g, u) {
      assert UnitOk(h, base, u);
      assert u != h.fl[j];
    }
  }

  lemma FreedThenHeld(h: Heap, g: Heap, k: Heap, bp: nat)
    requires FreedBlock(h, g, bp) && Held(g, k, bp) && bp in h.live
    ensures FreedBlock(h, k, bp)
  {
    forall u | u in h.own && h.own[u] in h.live && h.own[u] in k.live ensures SameUnit(h, k, u) {
      assert SameUnit(h, g, u) && SameUnit(g, k, u);
    }
  }

  /** The whole of free: link the block in behind position `j`, then merge upwards and downwards. */
  ghost predicate FreeSteps(h: Heap, base: nat, bp: nat, j: nat, g1: Heap, g2: Heap, g: Heap) {
    && j < |h.fl| && bp in h.mem && h.fl[j] in h.mem
    && g1 == Insert(h, bp, j)
    && j + 1 < |g1.fl| && g1.fl[j + 1] in g1.mem && (j + 2 < |g1.fl| ==> g1.fl[j + 2] in g1.mem)
    && g2 == MergeUp(g1, j + 1)
    && j + 1 < |g2.fl| && g2.fl[j] in g2.mem && g2.fl[j + 1] in g2.mem
    && g == if j == 0 then g2 else MergeUp(g2, j)
  }

  /** Where nothing touches, merging does nothing. */
  lemma NoMerge(h: Heap, i: nat, x: int, bp: nat)
    requires 0 < i < |h.fl| && h.fl[i] in h.mem && (i + 1 < |h.fl| ==> h.fl[i + 1] in h.mem)
    requires i + 1 < |h.fl| ==> h.fl[i] + h.mem[h.fl[i]].size != h.fl[i + 1]
    requires CoalescedBut(h, x, i) && bp in h.own && h.own[bp] in h.fl && h.own[bp] in h.mem
    ensures MergeUp(h, i) == h && CoalescedBut(h, x, x) && Held(h, h, bp)
  {
    forall k | 0 <= k < |h.fl| - 1 && k != x ensures Tight(h, k) {
      if k == i { assert Tight(h, i); }
    }
  }

  lemma MergeUpOk(h: Heap, base: nat, i: nat, x: int, bp: nat)
    requires Shaped(h, base) && 0 < i < |h.fl| && h.fl[i] in h.mem && (i + 1 < |h.fl| ==> h.fl[i + 1] in h.mem)
    requires CoalescedBut(h, x, i) && x < i
    requires bp in h.own && h.own[bp] in h.fl && h.own[bp] in h.mem
    ensures Shaped(MergeUp(h, i), base) && CoalescedBut(MergeUp(h, i), x, x)
    ensures Held(h, MergeUp(h, i), bp)
    ensures i < |MergeUp(h, i).fl| && MergeUp(h, i).fl[i] == h.fl[i] && MergeUp(h, i).fl[i - 1] == h.fl[i - 1]
  {
    hide Shaped, CoalescedBut, Held;
    if i + 1 < |h.fl| && h.fl[i] + h.mem[h.fl[i]].size == h.fl[i + 1] {
      AbsorbValid(h, base, i);
      AbsorbCoalesced(h, base, i, x);
      AbsorbHeld(h, base, i, bp);
    } else {
      NoMerge(h, i, x, bp);
    }
  }

  /** `base` has size 0 and so never touches the block behind it. */
  lemma BaseTight(h: Heap, base: nat)
    requires Shaped(h, base) && CoalescedBut(h, -1, 0)
    ensures Coalesced(h)
  {
    assert NodeOk(h, 0);
    forall k | 0 <= k < |h.fl| - 1 ensures Tight(h, k) { }
  }

  /** Between the two merges: only the block behind position `j` may still touch its neighbour. */
  ghost predicate Halfway(h: Heap, g: Heap, base: nat, bp: nat, j: nat) {
    && Shaped(g, base) && CoalescedBut(g, -1, j) && FreedBlock(h, g, bp)
    && j < |h.fl| && j + 1 < |g.fl| && g.fl[j] == h.fl[j]
  }

  lemma InsertOk(h: Heap, base: nat, bp: nat, j: nat)
    requires Fine(h, base) && bp in h.live && Slot(h, bp, j)
    ensures bp in h.mem && h.fl[j] in h.mem
    ensures
      var g := Insert(h, bp, j);
      && Shaped(g, base) && CoalescedBut(g, j, j + 1) && FreedBlock(h, g, bp)
      && j + 1 < |g.fl| && g.fl[j] == h.fl[j] && g.fl[j + 1] in g.mem && (j + 2 < |g.fl| ==> g.fl[j + 2] in g.mem)
  {
    InsertValid(h, base, bp, j);
    InsertCoalesced(h, base, bp, j);
    InsertFrees(h, base, bp, j);
    var g := Insert(h, bp, j);
    NodesIn(g, base, j + 1);
    if j + 2 < |g.fl| { NodesIn(g, base, j + 2); }
  }

  lemma FreeUp(h: Heap, base: nat, bp: nat, j: nat, g1: Heap)
    requires bp in h.live && j < |h.fl| && FreedBlock(h, g1, bp) && Shaped(g1, base) && CoalescedBut(g1, j, j + 1)
    requires j + 1 < |g1.fl| && g1.fl[j] == h.fl[j] && g1.fl[j + 1] in g1.mem
    requires j + 2 < |g1.fl| ==> g1.fl[j + 2] in g1.mem
    ensures Halfway(h, MergeUp(g1, j + 1), base, bp, j)
  {
    hide Shaped, Untouched, MergeUp;
    MergeUpOk(g1, base, j + 1, j, bp);
    FreedThenHeld(h, g1, MergeUp(g1, j + 1), bp);
  }

  lemma FreeDown(h: Heap, base: nat, bp: nat, j: nat, g2: Heap)
    requires bp in h.live && 0 < j && Halfway(h, g2, base, bp, j) && g2.fl[j] in g2.mem && g2.fl[j + 1] in g2.mem
    ensures Fine(MergeUp(g2, j), base) && FreedBlock(h, MergeUp(g2, j), bp) && h.fl[j] in MergeUp(g2, j).fl
  {
    hide Shaped, Untouched, MergeUp;
    MergeUpOk(g2, base, j, -1, bp);
    FreedThenHeld(h, g2, MergeUp(g2, j), bp);
  }

  lemma FreeStepsOk(h: Heap, base: nat, bp: nat, j: nat) returns (g1: Heap, g2: Heap, g: Heap)
    requires Fine(h, base) && bp in h.live && Slot(h, bp, j)
    ensures FreeSteps(h, base, bp, j, g1, g2, g)
    ensures Fine(g, base) && FreedBlock(h, g, bp) && h.fl[j] in g.fl
  {
    hide Shaped, FreedBlock, Insert, MergeUp, CoalescedBut;
    InsertOk(h, base, bp, j);
    g1 := Insert(h, bp, j);
    FreeUp(h, base, bp, j, g1);
    g2 := MergeUp(g1, j + 1);
    NodesIn(g2, base, j);
    NodesIn(g2, base, j + 1);
    if j == 0 {
      g := g2;
      BaseTight(g, base);
    } else {
      FreeDown(h, base, bp, j, g2);
      g := MergeUp(g2, j);
    }
  }

  /** The place of a live block in the address order. */
  lemma {:induction false} SlotFor(h: Heap, base: nat, bp: nat, k: nat) returns (t: nat)
    requires Shaped(h, base) && bp in h.live && k < |h.fl| && h.fl[k] < bp
    ensures Slot(h, bp, t) && k <= t
    decreases |h.fl| - k
  {
    hide NodeOk, Covers, UnitOk, Ascending;
    if k + 1 < |h.fl| && h.fl[k + 1] <= bp {
      assert h.fl[k + 1] != bp;
      t := SlotFor(h, base, bp, k + 1);
    } else {
      t := k;
    }
  }

  /** The last node of the list before address `bp`. */
  predicate Below(fl: seq<nat>, bp: nat, p: nat) {
    p in fl && p < bp && forall q :: q in fl && q < bp ==> q <= p
  }

  lemma LiveAbove(h: Heap, base: nat, bp: nat)
    requires Shaped(h, base) && bp in h.live
    ensures base < bp
  {
    assert IsBlock(h, bp) && Covers(h, bp) && UnitOk(h, base, bp);
  }

  // ---- The header writes of free

  /** Header `a` takes over the link, and the size, of the touching header `b`. */
  function Join(m: map<nat, Header>, a: nat, b: nat): map<nat, Header>
    requires a in m && b in m
  {
    m[a := Header(m[b].ptr, m[a].size + m[b].size)]
  }

  function LinkUp(m: map<nat, Header>, bp: nat, next: nat): map<nat, Header>
    requires bp in m && next in m
  {
    if bp + m[bp].size == next then Join(m, bp, next) else m[bp := m[bp].(ptr := next)]
  }

  function LinkDown(m: map<nat, Header>, p: nat, bp: nat): map<nat, Header>
    requires bp in m && p in m
  {
    if p + m[p].size == bp then Join(m, p, bp) else m[p := m[p].(ptr := bp)]
  }

  lemma LinkUpIs(h: Heap, base: nat, bp: nat, j: nat, g1: Heap, g2: Heap, g: Heap)
    requires Shaped(h, base) && bp in h.live && Slot(h, bp, j) && FreeSteps(h, base, bp, j, g1, g2, g)
    ensures h.mem[h.fl[j]].ptr in h.mem
    ensures
      var up := LinkUp(h.mem, bp, h.mem[h.fl[j]].ptr);
      g2.mem == up[h.fl[j] := h.mem[h.fl[j]].(ptr := bp)] && up[h.fl[j]] == h.mem[h.fl[j]]
    ensures g2.fl[j] == h.fl[j] && g2.fl[j + 1] == bp
  {
    LiveAbove(h, base, bp);
    NodesIn(h, base, j);
    NodesIn(h, base, 0);
    assert NodeOk(h, j) && bp !in h.fl && h.fl[j] in h.fl;
    if j + 1 < |h.fl| {
      NodesIn(h, base, j + 1);
      assert h.fl[j] < h.fl[j + 1] && g1.fl[j + 2] == h.fl[j + 1];
    }
  }

  lemma LinkDownIs(h: Heap, base: nat, bp: nat, j: nat, g1: Heap, g2: Heap, g: Heap)
    requires Shaped(h, base) && bp in h.live && Slot(h, bp, j) && FreeSteps(h, base, bp, j, g1, g2, g)
    ensures h.mem[h.fl[j]].ptr in h.mem
    ensures g.mem == LinkDown(LinkUp(h.mem, bp, h.mem[h.fl[j]].ptr), h.fl[j], bp)
  {
    LinkUpIs(h, base, bp, j, g1, g2, g);
    LiveAbove(h, base, bp);
    assert NodeOk(h, 0);
    assert bp !in h.fl && h.fl[j] in h.fl;
  }

  // ---- malloc and morecore

  /** The `n` units at `at` joined the free space and no block changed hands. */
  ghost predicate Grown(h: Heap, g: Heap, at: nat, n: nat) {
    && g.live == h.live && g.own.Keys == h.own.Keys + Units(at, n) && g.brk == at + n && Untouched(h, g)
    && at in g.own && g.own[at] in g.fl && g.own[at] in g.mem && g.mem[g.own[at]].size >= n
  }

  lemma GrowUntouched(h: Heap, g: Heap, k: Heap, at: nat, n: nat, junk: nat, u: nat)
    requires (forall v :: v in h.own ==> v < at) && at !in h.live && g == Grow(h, at, n, junk)
    requires Untouched(g, k) && k.live == h.live && u in h.own && h.own[u] in h.live
    ensures u in k.own && k.own[u] == h.own[u] && SameUnit(h, k, u)
  {
    hide Units;
    GrowUnits(h, at, n, junk, u);
    assert SameUnit(g, k, u);
  }

  lemma GrowThenFree(h: Heap, base: nat, g: Heap, k: Heap, at: nat, n: nat, junk: nat)
    requires Shaped(h, base) && h.brk <= at && n > 0 && g == Grow(h, at, n, junk) && FreedBlock(g, k, at)
    ensures Grown(h, k, at, n)
  {
    hide Units, Shaped;
    AllBelow(h, base, at);
    assert g.own.Keys == h.own.Keys + Units(at, n);
    assert k.live == h.live;
    hide SameUnit;
    forall u | u in h.own && h.own[u] in h.live && h.own[u] in k.live
      ensures u in k.own && k.own[u] == h.own[u] && SameUnit(h, k, u)
    {
      GrowUntouched(h, g, k, at, n, junk, u);
    }
  }

  /** Block `a` of `n` units, all of them free before, was handed out. */
  ghost predicate HandedOut(h: Heap, g: Heap, a: nat, n: nat) {
    && a !in h.live && g.live == h.live + {a} && g.own.Keys == h.own.Keys && g.brk == h.brk && Untouched(h, g)
    && a in g.mem && g.mem[a].size == n
    && forall u :: a <= u < a + n ==> u in h.own && h.own[u] in h.fl
  }

  lemma RemoveHandsOut(h: Heap, base: nat, k: nat)
    requires Shaped(h, base) && 0 < k < |h.fl| && h.fl[k] in h.mem && h.fl[k - 1] in h.mem
    ensures HandedOut(h, Remove(h, k), h.fl[k], h.mem[h.fl[k]].size)
    ensures h.fl[k] in h.own && h.own[h.fl[k]] == h.fl[k]
  {
    var g := Remove(h, k);
    BlockAt(h, base, k);
    assert h.fl[k - 1] in h.fl && h.fl[k - 1] !in h.live;
    assert h.fl[k - 1] != h.fl[k];
    if k > 1 { BlockAt(h, base, k - 1); }
    forall u | u in h.own && h.own[u] in h.live ensures SameUnit(h, g, u) {
      assert UnitOk(h, base, u);
      assert u != h.fl[k - 1];
    }
  }

  lemma SplitHandsOut(h: Heap, base: nat, k: nat, n: nat, junk: nat)
    requires Shaped(h, base) && 0 < k < |h.fl| && h.fl[k] in h.mem && 0 < n < h.mem[h.fl[k]].size
    ensures HandedOut(h, Split(h, k, n, junk), h.fl[k] + h.mem[h.fl[k]].size - n, n)
    ensures var q := h.fl[k] + h.mem[h.fl[k]].size - n; q in h.own && h.own[q] == h.fl[k]
  {
    var g := Split(h, k, n, junk);
    BlockAt(h, base, k);
    SplitFresh(h, base, k, n);
    assert h.fl[k] in h.fl && h.fl[k] !in h.live;
    hide NodeOk, UnitOk, Ascending;
    forall u | u in h.own && h.own[u] in h.live ensures g.own[u] == h.own[u] && SameUnit(h, g, u) {
      assert h.own[u] != h.fl[k];
    }
  }

  ghost predicate SmallAt(h: Heap, i: nat, n: nat) {
    i < |h.fl| && h.fl[i] in h.mem && h.mem[h.fl[i]].size < n
  }

  /** No free block has `n` units. */
  ghost predicate TooSmall(h: Heap, n: nat) {
    forall i :: 0 <= i < |h.fl| ==> SmallAt(h, i, n)
  }

  /** The index `o` places after `f` on the circular list. */
  function Around(len: nat, f: nat, o: nat): nat
    requires f < len && o <= len
  {
    if f + o < len then f + o else f + o - len
  }

  ghost predicate Swept(h: Heap, f: nat, o: nat, n: nat)
    requires f < |h.fl| && o <= |h.fl| + 1
  {
    forall k :: 1 <= k < o ==> SmallAt(h, Around(|h.fl|, f, k), n)
  }

  lemma SweptAll(h: Heap, f: nat, n: nat)
    requires f < |h.fl| && Swept(h, f, |h.fl| + 1, n)
    ensures TooSmall(h, n)
  {
    forall i | 0 <= i < |h.fl| ensures SmallAt(h, i, n) {
      var k := if i > f then i - f else i - f + |h.fl|;
      assert Around(|h.fl|, f, k) == i;
    }
  }

  lemma GrownFits(h: Heap, g: Heap, at: nat, n: nat)
    requires Grown(h, g, at, CoreFor(n))
    ensures !TooSmall(g, n)
  {
    var i :| 0 <= i < |g.fl| && g.fl[i] == g.own[at];
    assert !SmallAt(g, i, n);
  }

  /** The memory a successful malloc asks the kernel for. */
  ghost function Asked(h: Heap, core: Core, n: nat): set<nat>
    requires TooSmall(h, n) ==> core.Core?
  {
    if TooSmall(h, n) then Units(core.at, CoreFor(n)) else {}
  }

  /** A whole malloc: `a` is a new live block of exactly `n` units, carved from free space or
      from memory the kernel was asked for only because no free block was large enough. */
  ghost predicate Allocated(h: Heap, g: Heap, core: Core, a: nat, n: nat) {
    && (TooSmall(h, n) ==> core.Core?)
    && a !in h.live && g.live == h.live + {a} && a in g.mem && g.mem[a].size == n
    && g.own.Keys == h.own.Keys + Asked(h, core, n) && Untouched(h, g)
  }

  lemma HandedOutAtOnce(h: Heap, g: Heap, core: Core, a: nat, n: nat)
    requires !TooSmall(h, n) && HandedOut(h, g, a, n)
    ensures Allocated(h, g, core, a, n)
  {
    hide Untouched;
  }

  lemma HandedOutAfter(h: Heap, m: Heap, g: Heap, core: Core, a: nat, n: nat)
    requires TooSmall(h, n) && core.Core? && Grown(h, m, core.at, CoreFor(n)) && HandedOut(m, g, a, n)
    ensures Allocated(h, g, core, a, n)
  {
    hide Units;
    forall u | u in h.own && h.own[u] in h.live ensures u in g.own && g.own[u] == h.own[u] && SameUnit(h, g, u) {
      assert SameUnit(h, m, u) && SameUnit(m, g, u);
    }
  }

  lemma AllocatedFromStart(h: Heap, h0: Heap, g: Heap, core: Core, a: nat, n: nat)
    requires Allocated(h0, g, core, a, n) && h.live == h0.live && h.own == h0.own
    requires h == h0 || (h.fl == [] && h.own == map[] && TooSmall(h0, n))
    ensures Allocated(h, g, core, a, n)
  {
  }

  /** The sweep stands at `p`, `o` places after freep, with `prevp` just before it. */
  ghost predicate Sweeping(h: Heap, freep: nat, f: nat, o: nat, prevp: nat, p: nat, n: nat) {
    && f < |h.fl| && h.fl[f] == freep && 1 <= o <= |h.fl|
    && p == h.fl[Around(|h.fl|, f, o)] && prevp == h.fl[Around(|h.fl|, f, o - 1)]
    && Swept(h, f, o, n)
  }

  lemma SweepStarts(h: Heap, base: nat, freep: nat, n: nat) returns (f: nat)
    requires Shaped(h, base) && freep in h.fl
    ensures freep in h.mem && Sweeping(h, freep, f, 1, freep, h.mem[freep].ptr, n)
  {
    f :| 0 <= f < |h.fl| && h.fl[f] == freep;
    assert NodeOk(h, f);
  }

  lemma SweepGoesOn(h: Heap, base: nat, freep: nat, f: nat, o: nat, prevp: nat, p: nat, n: nat)
    requires Shaped(h, base) && Sweeping(h, freep, f, o, prevp, p, n)
    ensures p in h.mem
    ensures p == freep ==> o == |h.fl|
    ensures h.mem[p].size < n && p != freep ==> Sweeping(h, freep, f, o + 1, p, h.mem[p].ptr, n)
    ensures h.mem[p].size < n && p == freep ==> TooSmall(h, n)
  {
    var i := Around(|h.fl|, f, o);
    assert NodeOk(h, i);
    assert p == freep ==> i == f;
    if h.mem[p].size < n {
      assert SmallAt(h, i, n);
      assert Swept(h, f, o + 1, n);
      if p == freep { SweptAll(h, f, n); }
    }
  }

  /** The units are the last ones of the first block after `freep` that is large enough, and the sweep left
      freep just before that block. */
  ghost predicate NextFit(h: Heap, freep: nat, a: nat, n: nat, freep': nat) {
    && a in h.own && h.own[a] in h.mem && a + n == h.own[a] + h.mem[h.own[a]].size
    && exists f: nat, o: nat :: Sweeping(h, freep, f, o, freep', h.own[a], n)
  }

  /** A block that fits is not `base`, so the one before it in the sweep is its list predecessor. */
  lemma SweepFits(h: Heap, base: nat, freep: nat, f: nat, o: nat, prevp: nat, p: nat, n: nat) returns (k: nat)
    requires Shaped(h, base) && Sweeping(h, freep, f, o, prevp, p, n) && n > 0
    requires p in h.mem && h.mem[p].size >= n
    ensures 0 < k < |h.fl| && p == h.fl[k] && prevp == h.fl[k - 1] && prevp in h.mem && !TooSmall(h, n)
  {
    k := Around(|h.fl|, f, o);
    assert NodeOk(h, k);
    assert NodeOk(h, k - 1);
    assert !SmallAt(h, k, n);
  }

  class Allocator {
    var mem: map<nat, Header>
    var freep: nat // 0 before the first malloc
    const base: nat
    ghost var fl: seq<nat>
    ghost var own: map<nat, nat>
    ghost var live: set<nat>
    ghost var brk: nat
    ghost var cores: nat // how often morecore asked for memory

    ghost function H(): Heap
      reads this
    {
      Heap(mem, fl, own, live, brk)
    }

    ghost predicate Ready()
      reads this
    {
      0 < base && Fine(H(), base) && freep in fl
    }

    ghost predicate Valid()
      reads this
    {
      if freep == 0 then 0 < base < brk && fl == [] && own == map[] && live == {} else Ready()
    }

    constructor (at: nat, end: nat)
      requires 0 < at < end
      ensures Valid() && freep == 0 && base == at && brk == end
    {
      mem, freep, base, fl, own, live, brk, cores := map[], 0, at, [], map[], {}, end, 0;
    }

    ghost method SetHeap(g: Heap)
      requires g.mem == mem
      modifies this`fl, this`own, this`live, this`brk
      ensures H() == g
    {
      fl, own, live, brk := g.fl, g.own, g.live, g.brk;
    }

    /** The search loop of free ends at the one place in the address order where `bp` belongs. */
    method FindPlace(bp: nat) returns (p: nat, ghost j: nat)
      requires Ready() && bp in live
      ensures Slot(H(), bp, j) && p == fl[j] && Below(fl, bp, p)
    {
      LiveAbove(H(), base, bp);
      ghost var t := SlotFor(H(), base, bp, 0);
      p := freep;
      j :| 0 <= j < |fl| && fl[j] == freep;
      assert NodeOk(H(), j);
      while !(bp > p && bp < mem[p].ptr)
        invariant 0 <= j < |fl| && p == fl[j] && NodeOk(H(), j)
        decreases if j <= t then t - j else t + |fl| - j
      {
        if p >= mem[p].ptr && (bp > p || bp < mem[p].ptr) { break; }
        p := mem[p].ptr;
        j := Next(|fl|, j);
        assert NodeOk(H(), j);
      }
      assert forall i :: j < i < |fl| ==> fl[i] > bp;
    }

    method Relink(p: nat, bp: nat)
      requires p in mem && bp in mem && mem[p].ptr in mem
      modifies this`mem, this`freep
      ensures mem == LinkDown(LinkUp(old(mem), bp, old(mem[p].ptr)), p, bp) && freep == p
    {
      var next := mem[p].ptr;
      if bp + mem[bp].size == next {
        mem := mem[bp := Header(mem[next].ptr, mem[bp].size + mem[next].size)];
      } else {
        mem := mem[bp := mem[bp].(ptr := next)];
      }
      if p + mem[p].size == bp {
        mem := mem[p := Header(mem[bp].ptr, mem[p].size + mem[bp].size)];
      } else {
        mem := mem[p := mem[p].(ptr := bp)];
      }
      freep := p;
    }

    method Free(ap: nat)
      requires Valid() && ap > 0 && ap - 1 in live
      modifies this
      ensures Ready() && FreedBlock(old(H()), H(), ap - 1) && cores == old(cores)
      ensures Below(old(fl), ap - 1, freep)
    {
      hide Shaped, FreedBlock, CoalescedBut, MergeUp, LinkUp, LinkDown, Insert, Below;
      var bp := ap - 1;
      ghost var h := H();
      var p, j := FindPlace(bp);
      ghost var g1, g2, g := FreeStepsOk(h, base, bp, j);
      LinkDownIs(h, base, bp, j, g1, g2, g);
      Relink(p, bp);
      SetHeap(g);
    }

    method Morecore(nu: nat, core: Core) returns (p: nat)
      requires Ready() && nu > 0 && (core.Core? ==> brk <= core.at)
      modifies this
      ensures cores == old(cores) + 1 && Ready()
      ensures core.NoCore? ==> p == 0 && H() == old(H())
      ensures core.Core? ==> p == freep != 0 && Grown(old(H()), H(), core.at, CoreFor(nu))
      ensures core.Core? ==> own.Keys == old(own).Keys + Units(core.at, if nu < 4096 then 4096 else nu)
    {
      cores := cores + 1;
      var n := CoreFor(nu);
      if core.NoCore? { return 0; }
      ghost var h := H();
      GrowValid(h, base, core.at, n, 0);
      GrowCoalesced(h, base, core.at, n, 0);
      ghost var g := Grow(h, core.at, n, 0);
      mem := mem[core.at := Header(0, n)];
      SetHeap(g);
      assert Fine(H(), base);
      hide Shaped, CoalescedBut, Grow, FreedBlock;
      Free(core.at + 1);
      GrowThenFree(h, base, g, H(), core.at, n, 0);
      p := freep;
    }

    /** The two ways of taking `n` units: the whole block, or the tail of a larger one. */
    method Take(prevp: nat, p: nat, n: nat, ghost k: nat) returns (a: nat)
      requires Ready() && 0 < k < |fl| && p == fl[k] && prevp == fl[k - 1]
      requires p in mem && prevp in mem && 0 < n <= mem[p].size
      modifies this
      ensures Ready() && HandedOut(old(H()), H(), a, n) && cores == old(cores)
      ensures a in old(own) && old(own)[a] == p && a + n == p + old(mem[p].size) && freep == prevp
    {
      hide Shaped, CoalescedBut, HandedOut;
      ghost var h := H();
      if mem[p].size == n {
        RemoveValid(h, base, k);
        RemoveCoalesced(h, base, k);
        RemoveHandsOut(h, base, k);
        ghost var g := Remove(h, k);
        assert g.fl[k - 1] == prevp;
        mem := mem[prevp := mem[prevp].(ptr := mem[p].ptr)];
        a := p;
        SetHeap(g);
      } else {
        var q := p + (mem[p].size - n);
        var junk := if q in mem then mem[q].ptr else 0;
        SplitValid(h, base, k, n, junk);
        SplitCoalesced(h, base, k, n, junk);
        SplitHandsOut(h, base, k, n, junk);
        ghost var g := Split(h, k, n, junk);
        mem := mem[p := mem[p].(size := mem[p].size - n)];
        mem := mem[q := Header(junk, n)];
        a := q;
        SetHeap(g);
      }
      freep := prevp;
    }

    /** The first malloc makes `base` the whole free list. */
    method Start(ghost n: nat)
      requires Valid()
      modifies this
      ensures Ready() && cores == old(cores) && live == old(live) && own == old(own) && brk == old(brk)
      ensures old(freep) != 0 ==> H() == old(H()) && freep == old(freep)
      ensures old(freep) == 0 && n > 0 ==> TooSmall(H(), n)
    {
      if freep == 0 {
        mem := mem[base := Header(base, 0)];
        freep := base;
        fl := [base];
        assert NodeOk(H(), 0);
      }
    }

    /** The loop of malloc: the first fit on the circle from freep, after at most one morecore. */
    method FirstFit(n: nat, core: Core) returns (r: nat)
      requires Ready() && n > 0 && (core.Core? ==> brk <= core.at)
      modifies this
      ensures Ready()
      ensures r == 0 <==> TooSmall(old(H()), n) && core.NoCore?
      ensures r == 0 ==> H() == old(H())
      ensures r != 0 ==> Allocated(old(H()), H(), core, r - 1, n)
      ensures !TooSmall(old(H()), n) ==> NextFit(old(H()), old(freep), r - 1, n, freep)
      ensures cores == old(cores) + if TooSmall(old(H()), n) then 1 else 0
    {
      hide Shaped, CoalescedBut, Swept, TooSmall, Allocated, HandedOut, Grown, Sweeping, CoreFor;
      ghost var h := H();
      ghost var f := SweepStarts(h, base, freep, n);
      var prevp := freep;
      var p := mem[prevp].ptr;
      ghost var o, grown := 1, false;
      while true
        invariant Ready() && Sweeping(H(), freep, f, o, prevp, p, n)
        invariant !grown ==> H() == h && freep == old(freep) && cores == old(cores)
        invariant grown ==> core.Core? && TooSmall(h, n)
        invariant grown ==> Grown(h, H(), core.at, CoreFor(n)) && cores == old(cores) + 1
        decreases !grown, |fl| - o
      {
        SweepGoesOn(H(), base, freep, f, o, prevp, p, n);
        if mem[p].size >= n {
          ghost var k := SweepFits(H(), base, freep, f, o, prevp, p, n);
          ghost var m := H();
          var a := Take(prevp, p, n, k);
          if grown {
            HandedOutAfter(h, m, H(), core, a, n);
          } else {
            HandedOutAtOnce(h, H(), core, a, n);
          }
          return a + 1;
        }
        if p == freep {
          if grown { GrownFits(h, H(), core.at, n); }
          p := Morecore(n, core);
          if p == 0 { return 0; }
          grown := true;
          f := SweepStarts(H(), base, freep, n);
          o := 0;
        }
        prevp := p;
        p := mem[p].ptr;
        o := o + 1;
      }
    }

    method Malloc(nbytes: nat, core: Core) returns (r: nat)
      requires Valid() && nbytes <= MAXREQUEST && (core.Core? ==> brk <= core.at)
      modifies this
      ensures Ready()
      ensures r == 0 <==> TooSmall(old(H()), UnitsFor(nbytes)) && core.NoCore?
      ensures r == 0 ==> live == old(live) && own == old(own) && brk == old(brk)
      ensures r != 0 ==> Allocated(old(H()), H(), core, r - 1, UnitsFor(nbytes))
      ensures !TooSmall(old(H()), UnitsFor(nbytes)) ==> NextFit(old(H()), old(freep), r - 1, UnitsFor(nbytes), freep)
      ensures cores == old(cores) + if TooSmall(old(H()), UnitsFor(nbytes)) then 1 else 0
    {
      hide Shaped, CoalescedBut, TooSmall, Allocated, NextFit;
      var n := (nbytes + HEADER - 1) / HEADER + 1;
      if freep == 0 { EmptyTooSmall(H(), n); }
      Start(n);
      ghost var h := H();
      r := FirstFit(n, core);
      if r != 0 { AllocatedFromStart(old(H()), h, H(), core, r - 1, n); }
    }
  }

  lemma EmptyTooSmall(h: Heap, n: nat)
    requires h.fl == []
    ensures TooSmall(h, n)
  {
  }
}
