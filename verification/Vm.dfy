/** Two-level page tables over the page allocator (vm.c, kalloc.c), with physical pages counted
    by frame number and virtual addresses by page number. */
module Vm {
  import opened Collections

  const NENTRIES: nat := 1024
  const PGSIZE: nat := 4096
  const USERPAGES: nat := 524288 // KERNBASE / PGSIZE
  const PTE_P: nat := 1
  const PTE_W: nat := 2
  const PTE_U: nat := 4

  type Page = seq<nat>

  /** What a frame is in use for. Busy: a page its caller holds, or one that is not of this
      address space. */
  datatype Owner = Free | Busy | Dir | Table(i: nat) | User(v: nat)

  /** `head` is kmem.freelist, `free` the list behind it, `own` the use of every frame that
      kalloc manages. */
  datatype State = State(mem: map<nat, Page>, head: nat, free: seq<nat>, own: map<nat, Owner>)

  // ---- Entries

  function Frame(w: nat): nat { w / PGSIZE }

  predicate Present(w: nat) { w % PGSIZE % 2 == PTE_P }

  /** Bits 1 and 2: writable, and open to the user. */
  predicate Open(w: nat) { w / 2 % 2 == 1 && w / 4 % 2 == 1 }

  /** A present entry, writable and open to the user, for frame `f`. */
  function Pte(f: nat): (w: nat)
    ensures Present(w) && Open(w) && Frame(w) == f
  {
    PGSIZE * f + (PTE_P + PTE_W + PTE_U)
  }

  function Entry(s: State, f: nat, k: nat): nat {
    if f in s.mem && k < |s.mem[f]| then s.mem[f][k] else 0
  }

  /** The page-table entry of virtual page `v`, 0 if there is no table. */
  function Lookup(s: State, pd: nat, v: nat): nat {
    var e := Entry(s, pd, v / NENTRIES);
    if Present(e) then Entry(s, Frame(e), v % NENTRIES) else 0
  }

  // ---- What the processor sees

  /** Word `k` of the physical page `f`. */
  function WordAt(mem: map<nat, Page>, f: nat, k: nat): nat { if f in mem && k < |mem[f]| then mem[f][k] else 0 }

  /** The page-table entry that the processor finds for address `va`: bits 22 to 31 choose the directory
      entry, bits 12 to 21 the entry of the table whose page number is in bits 12 to 31. */
  function Walk(mem: map<nat, Page>, pd: nat, va: nat): nat {
    WordAt(mem, WordAt(mem, pd, va / 0x40_0000) / 0x1000, va / 0x1000 % 0x400)
  }

  /** The user may read and write `va`: bits 0, 1 and 2 are set on both levels. */
  predicate UserMay(mem: map<nat, Page>, pd: nat, va: nat) {
    var pde, pte := WordAt(mem, pd, va / 0x40_0000), Walk(mem, pd, va);
    && pde % 2 == 1 && pde / 2 % 2 == 1 && pde / 4 % 2 == 1
    && pte % 2 == 1 && pte / 2 % 2 == 1 && pte / 4 % 2 == 1
  }

  /** The physical address of `va`. */
  function Physical(mem: map<nat, Page>, pd: nat, va: nat): nat { Walk(mem, pd, va) / 0x1000 * 0x1000 + va % 0x1000 }

  /** Nothing is mapped at `va`. */
  predicate Faults(mem: map<nat, Page>, pd: nat, va: nat) {
    WordAt(mem, pd, va / 0x40_0000) % 2 == 0 || Walk(mem, pd, va) % 2 == 0
  }

  // ---- The invariants

  predicate FrameOk(s: State, f: nat) {
    f > 0 && f in s.mem && |s.mem[f]| == NENTRIES
  }

  /** The link of free page `k`, kept in its first word. */
  predicate LinkOk(s: State, k: nat)
    requires k < |s.free|
  {
    && s.free[k] in s.own && s.own[s.free[k]] == Free
    && Entry(s, s.free[k], 0) == if k + 1 < |s.free| then s.free[k + 1] else 0
  }

  ghost predicate KmemOk(s: State) {
    && (forall f :: f in s.own ==> FrameOk(s, f))
    && (forall k :: 0 <= k < |s.free| ==> LinkOk(s, k))
    && s.head == (if |s.free| == 0 then 0 else s.free[0])
    && Distinct(s.free) && (forall f :: f in s.own && s.own[f] == Free ==> f in s.free)
  }

  predicate DirOk(s: State, pd: nat, i: nat) {
    var e := Entry(s, pd, i);
    e == 0 || (Present(e) && Open(e) && Frame(e) in s.own && s.own[Frame(e)] == Table(i))
  }

  predicate UserOk(s: State, pd: nat, v: nat) {
    var w := Lookup(s, pd, v);
    Present(w) ==> Frame(w) in s.own && s.own[Frame(w)] == User(v)
  }

  /** A frame in use as a table or user page is mapped where it says. */
  predicate OwnOk(s: State, pd: nat, f: nat)
    requires f in s.own
  {
    match s.own[f]
    case Free => true
    case Busy => true
    case Dir => f == pd
    case Table(i) => i < NENTRIES && Present(Entry(s, pd, i)) && Frame(Entry(s, pd, i)) == f
    case User(v) => v < USERPAGES && Present(Lookup(s, pd, v)) && Frame(Lookup(s, pd, v)) == f
  }

  ghost predicate SpaceOk(s: State, pd: nat) {
    && pd in s.own && s.own[pd] == Dir
    && (forall i :: 0 <= i < NENTRIES ==> DirOk(s, pd, i))
    && (forall v :: 0 <= v < USERPAGES ==> UserOk(s, pd, v))
    && (forall f :: f in s.own ==> OwnOk(s, pd, f))
  }

  ghost predicate Ok(s: State, pd: nat) { KmemOk(s) && SpaceOk(s, pd) }

  // ---- kalloc and kfree

  function Filled(w: nat): (p: Page)
    ensures |p| == NENTRIES && forall k :: 0 <= k < NENTRIES ==> p[k] == w
  {
    seq(NENTRIES, i => w)
  }

  const JUNK: nat := 0x01010101

  ghost function Taken(s: State): State
    requires |s.free| > 0 && KmemOk(s)
  {
    State(s.mem, Entry(s, s.free[0], 0), s.free[1..], s.own[s.free[0] := Busy])
  }

  lemma TakenOk(s: State)
    requires KmemOk(s) && |s.free| > 0
    ensures s.head == s.free[0] != 0 && s.head in s.own && s.own[s.head] == Free && KmemOk(Taken(s))
  {
    var t := Taken(s);
    assert LinkOk(s, 0) && FrameOk(s, s.free[0]);
    forall f | f in t.own ensures FrameOk(t, f) { assert FrameOk(s, f); }
    forall k | 0 <= k < |t.free| ensures LinkOk(t, k) { assert LinkOk(s, k + 1); }
    assert s.free == [s.free[0]] + s.free[1..];
  }

  function Given(s: State, f: nat): State {
    State(s.mem[f := Filled(JUNK)[0 := s.head]], f, [f] + s.free, s.own[f := Free])
  }

  lemma GivenOk(s: State, f: nat)
    requires KmemOk(s) && f in s.own && s.own[f] != Free
    ensures KmemOk(Given(s, f))
  {
    var t := Given(s, f);
    assert FrameOk(s, f);
    forall g | g in t.own ensures FrameOk(t, g) { if g != f { assert FrameOk(s, g); } }
    forall k | 0 <= k < |t.free| ensures LinkOk(t, k) {
      if k > 0 { assert LinkOk(s, k - 1); }
      if k > 1 { assert LinkOk(s, k - 2); }
    }
    forall i, j | 0 <= i < j < |t.free| ensures t.free[i] != t.free[j] { assert LinkOk(s, j - 1); }
  }

  // ---- Page-table steps

  function SetEntry(s: State, f: nat, k: nat, w: nat): State
    requires f in s.mem && k < |s.mem[f]|
  {
    var page: Page := s.mem[f][k := w];
    s.(mem := s.mem[f := page])
  }

  lemma EntryOf(s: State, f: nat, k: nat, w: nat, g: nat, j: nat)
    requires f in s.mem && k < |s.mem[f]|
    ensures Entry(SetEntry(s, f, k, w), g, j) == if g == f && j == k then w else Entry(s, g, j)
  {
  }

  /** Writing a page in use neither as a free page nor beyond its end keeps the allocator. */
  lemma KmemStays(s: State, t: State)
    requires KmemOk(s) && t.head == s.head && t.free == s.free && t.own.Keys == s.own.Keys
    requires forall f :: f in s.own ==> FrameOk(t, f) && (t.own[f] == Free <==> s.own[f] == Free)
    requires forall f :: f in s.own && s.own[f] == Free ==> Entry(t, f, 0) == Entry(s, f, 0)
    ensures KmemOk(t)
  {
    forall k | 0 <= k < |t.free| ensures LinkOk(t, k) { assert LinkOk(s, k); }
  }

  /** Frames that are no table or directory do not matter to the map. */
  ghost predicate SameTables(s: State, t: State, pd: nat) {
    && (forall k :: 0 <= k < NENTRIES ==> Entry(t, pd, k) == Entry(s, pd, k))
    && (forall f, k :: f in s.own && s.own[f].Table? ==> Entry(t, f, k) == Entry(s, f, k))
  }

  lemma SameLookup(s: State, t: State, pd: nat, v: nat)
    requires SpaceOk(s, pd) && SameTables(s, t, pd) && v < NENTRIES * NENTRIES
    ensures Lookup(t, pd, v) == Lookup(s, pd, v)
  {
    assert DirOk(s, pd, v / NENTRIES);
  }

  /** A busy page may become free or the other way round, or be written. */
  lemma BusySteps(s: State, t: State, pd: nat, f: nat)
    requires SpaceOk(s, pd) && f in s.own && s.own[f] in {Busy, Free}
    requires f in t.own && t.own[f] in {Busy, Free} && t.own == s.own[f := t.own[f]]
    requires forall g, k :: g != f ==> Entry(t, g, k) == Entry(s, g, k)
    ensures SpaceOk(t, pd) && forall v :: 0 <= v < NENTRIES * NENTRIES ==> Lookup(t, pd, v) == Lookup(s, pd, v)
  {
    assert SameTables(s, t, pd);
    forall v | 0 <= v < NENTRIES * NENTRIES ensures Lookup(t, pd, v) == Lookup(s, pd, v) { SameLookup(s, t, pd, v); }
    forall i | 0 <= i < NENTRIES ensures DirOk(t, pd, i) { assert DirOk(s, pd, i); }
    forall v | 0 <= v < USERPAGES ensures UserOk(t, pd, v) { assert UserOk(s, pd, v); }
    forall g | g in t.own ensures OwnOk(t, pd, g) { assert OwnOk(s, pd, g); }
  }

  /** walkpgdir's new table page: zeroed, so nothing is mapped through it yet. */
  function WithTable(s: State, pd: nat, i: nat, f: nat): State
    requires pd in s.mem && i < |s.mem[pd]|
  {
    SetEntry(s, pd, i, Pte(f)).(own := s.own[f := Table(i)])
  }

  ghost predicate ZeroPage(s: State, f: nat) { forall k :: 0 <= k < NENTRIES ==> Entry(s, f, k) == 0 }

  lemma WithTableLookup(s: State, pd: nat, i: nat, f: nat, v: nat)
    requires Ok(s, pd) && i < NENTRIES && Entry(s, pd, i) == 0 && f in s.own && s.own[f] == Busy && ZeroPage(s, f)
    requires v < NENTRIES * NENTRIES && FrameOk(s, pd)
    ensures Lookup(WithTable(s, pd, i, f), pd, v) == Lookup(s, pd, v)
  {
    var t, d := WithTable(s, pd, i, f), v / NENTRIES;
    EntryOf(s, pd, i, Pte(f), pd, d);
    assert DirOk(s, pd, d);
    var g := if d == i then f else Frame(Entry(s, pd, d));
    EntryOf(s, pd, i, Pte(f), g, v % NENTRIES);
    assert d != i && Present(Entry(s, pd, d)) ==> g != pd;
  }

  lemma WithTableOk(s: State, pd: nat, i: nat, f: nat)
    requires Ok(s, pd) && i < NENTRIES && Entry(s, pd, i) == 0 && f in s.own && s.own[f] == Busy && ZeroPage(s, f)
    ensures FrameOk(s, pd) && Ok(WithTable(s, pd, i, f), pd)
  {
    assert FrameOk(s, pd) && FrameOk(s, f);
    var t := WithTable(s, pd, i, f);
    KmemStays(s, t) by { forall g | g in s.own ensures FrameOk(t, g) { assert FrameOk(s, g); } }
    forall v | 0 <= v < NENTRIES * NENTRIES ensures Lookup(t, pd, v) == Lookup(s, pd, v) {
      WithTableLookup(s, pd, i, f, v);
    }
    forall j | 0 <= j < NENTRIES ensures DirOk(t, pd, j) {
      assert DirOk(s, pd, j);
      EntryOf(s, pd, i, Pte(f), pd, j);
    }
    hide Lookup, SetEntry;
    forall v | 0 <= v < USERPAGES ensures UserOk(t, pd, v) { assert UserOk(s, pd, v); }
    forall g | g in t.own ensures OwnOk(t, pd, g) {
      assert OwnOk(s, pd, g);
      if s.own[g].Table? { EntryOf(s, pd, i, Pte(f), pd, s.own[g].i); }
      if g == f { EntryOf(s, pd, i, Pte(f), pd, i); }
    }
  }

  /** The table that virtual page `v` goes through. */
  function TableOf(s: State, pd: nat, v: nat): nat { Frame(Entry(s, pd, v / NENTRIES)) }

  ghost predicate HasTable(s: State, pd: nat, v: nat) {
    v < NENTRIES * NENTRIES && Present(Entry(s, pd, v / NENTRIES))
  }

  lemma TableReady(s: State, pd: nat, v: nat)
    requires Ok(s, pd) && HasTable(s, pd, v)
    ensures var tab := TableOf(s, pd, v);
            FrameOk(s, tab) && tab in s.own && s.own[tab] == Table(v / NENTRIES) && tab != pd
  {
    assert DirOk(s, pd, v / NENTRIES);
    assert FrameOk(s, TableOf(s, pd, v));
  }

  /** `*pte = w` changes the map at `v` and nowhere else. */
  lemma PteWritten(s: State, pd: nat, v: nat, w: nat, u: nat)
    requires Ok(s, pd) && HasTable(s, pd, v) && FrameOk(s, TableOf(s, pd, v)) && u < NENTRIES * NENTRIES
    ensures Lookup(SetEntry(s, TableOf(s, pd, v), v % NENTRIES, w), pd, u) == if u == v then w else Lookup(s, pd, u)
  {
    var tab, d := TableOf(s, pd, v), u / NENTRIES;
    TableReady(s, pd, v);
    EntryOf(s, tab, v % NENTRIES, w, pd, d);
    assert DirOk(s, pd, d);
    EntryOf(s, tab, v % NENTRIES, w, Frame(Entry(s, pd, d)), u % NENTRIES);
    hide SetEntry;
    assert u == d * NENTRIES + u % NENTRIES && v == v / NENTRIES * NENTRIES + v % NENTRIES;
  }

  lemma PteKmem(s: State, t: State, pd: nat, v: nat, w: nat, f: nat)
    requires Ok(s, pd) && HasTable(s, pd, v) && FrameOk(s, TableOf(s, pd, v)) && f in s.own && s.own[f] != Free
    requires t == SetEntry(s, TableOf(s, pd, v), v % NENTRIES, w).(own := t.own)
    requires f in t.own && t.own == s.own[f := t.own[f]] && t.own[f] != Free
    ensures KmemOk(t)
  {
    TableReady(s, pd, v);
    hide SpaceOk;
    KmemStays(s, t) by { forall g | g in s.own ensures FrameOk(t, g) { assert FrameOk(s, g); } }
  }

  /** The map at `v` becomes `w`, everything else stays. */
  ghost predicate MapPut(s: State, t: State, pd: nat, v: nat, w: nat) {
    forall u :: 0 <= u < NENTRIES * NENTRIES ==> Lookup(t, pd, u) == if u == v then w else Lookup(s, pd, u)
  }

  /** Mapping a busy frame, or giving up a mapped one. */
  ghost predicate Exchange(s: State, t: State, pd: nat, v: nat, w: nat, f: nat) {
    && f in s.own && f in t.own && t.own == s.own[f := t.own[f]]
    && ((s.own[f] == Busy && !Present(Lookup(s, pd, v)) && t.own[f] == User(v) && Present(w) && Frame(w) == f)
        || (s.own[f] == User(v) && t.own[f] == Busy && w == 0))
  }

  lemma SpaceFrom(s: State, t: State, pd: nat, v: nat, w: nat, f: nat)
    requires SpaceOk(s, pd) && v < USERPAGES && Exchange(s, t, pd, v, w, f) && MapPut(s, t, pd, v, w)
    requires forall j :: 0 <= j < NENTRIES ==> Entry(t, pd, j) == Entry(s, pd, j)
    ensures SpaceOk(t, pd)
  {
    hide Lookup, Entry;
    forall j | 0 <= j < NENTRIES ensures DirOk(t, pd, j) { assert DirOk(s, pd, j); }
    forall u | 0 <= u < USERPAGES ensures UserOk(t, pd, u) { assert UserOk(s, pd, u); }
    forall g | g in t.own ensures OwnOk(t, pd, g) { assert OwnOk(s, pd, g); }
  }

  lemma PteWriteKeeps(s: State, t: State, pd: nat, v: nat, w: nat, f: nat)
    requires Ok(s, pd) && HasTable(s, pd, v) && v < USERPAGES && FrameOk(s, TableOf(s, pd, v))
    requires Exchange(s, t, pd, v, w, f) && t == SetEntry(s, TableOf(s, pd, v), v % NENTRIES, w).(own := t.own)
    ensures Ok(t, pd) && MapPut(s, t, pd, v, w)
  {
    TableReady(s, pd, v);
    PteKmem(s, t, pd, v, w, f);
    hide KmemOk, SpaceOk;
    forall u | 0 <= u < NENTRIES * NENTRIES ensures Lookup(t, pd, u) == if u == v then w else Lookup(s, pd, u) {
      PteWritten(s, pd, v, w, u);
    }
    SpaceFrom(s, t, pd, v, w, f);
  }

  // ---- Unmapping

  /** One mapped page: its frame is freed, then its entry cleared. */
  function Unmapped(s: State, pd: nat, v: nat): State {
    var w, tab := Lookup(s, pd, v), TableOf(s, pd, v);
    if Present(w) && tab in s.mem && |s.mem[tab]| == NENTRIES && tab != Frame(w)
    then SetEntry(Given(s, Frame(w)), tab, v % NENTRIES, 0)
    else s
  }

  /** What unmapping makes of the use of a frame. */
  ghost predicate OwnAfter(s: State, t: State, lo: nat, hi: nat) {
    && t.own.Keys == s.own.Keys
    && forall f :: f in s.own ==> t.own[f] == if s.own[f].User? && lo <= s.own[f].v < hi then Free else s.own[f]
  }

  /** The map without the pages from `lo` to `hi`. */
  ghost predicate MapAfter(s: State, t: State, pd: nat, lo: nat, hi: nat) {
    forall u :: 0 <= u < NENTRIES * NENTRIES ==>
      if lo <= u < hi then !Present(Lookup(t, pd, u)) else Lookup(t, pd, u) == Lookup(s, pd, u)
  }

  /** Pages that stay in use, other than tables, keep their contents. */
  ghost predicate PagesStay(s: State, t: State) {
    forall f :: f in s.own && f in t.own && t.own[f] == s.own[f] && (s.own[f].User? || s.own[f].Busy?) ==>
      SamePage(s, t, f)
  }

  predicate SamePage(s: State, t: State, f: nat) { f in s.mem && f in t.mem && t.mem[f] == s.mem[f] }

  lemma LookupHas(s: State, pd: nat, v: nat)
    requires Ok(s, pd) && v < USERPAGES && Present(Lookup(s, pd, v))
    ensures HasTable(s, pd, v) && FrameOk(s, TableOf(s, pd, v))
    ensures var f := Frame(Lookup(s, pd, v)); f in s.own && s.own[f] == User(v) && f != TableOf(s, pd, v)
  {
    assert UserOk(s, pd, v);
    TableReady(s, pd, v);
  }

  lemma UnmappedOk(s: State, pd: nat, v: nat)
    requires Ok(s, pd) && v < USERPAGES && Present(Lookup(s, pd, v))
    ensures Ok(Unmapped(s, pd, v), pd) && MapAfter(s, Unmapped(s, pd, v), pd, v, v + 1)
    ensures OwnAfter(s, Unmapped(s, pd, v), v, v + 1) && PagesStay(s, Unmapped(s, pd, v))
  {
    hide KmemOk, SpaceOk, OwnAfter, PagesStay;
    LookupHas(s, pd, v);
    UnmappedOwn(s, pd, v);
    var f, tab := Frame(Lookup(s, pd, v)), TableOf(s, pd, v);
    var c := SetEntry(s, tab, v % NENTRIES, 0).(own := s.own[f := Busy]);
    PteWriteKeeps(s, c, pd, v, 0, f);
    var t := Given(c, f);
    GivenOk(c, f);
    BusySteps(c, t, pd, f);
    assert t == Unmapped(s, pd, v);
    hide Unmapped, Lookup, SetEntry, Given;
    assert MapAfter(s, t, pd, v, v + 1);
  }

  lemma UnmappedOwn(s: State, pd: nat, v: nat)
    requires Ok(s, pd) && v < USERPAGES && Present(Lookup(s, pd, v))
    ensures OwnAfter(s, Unmapped(s, pd, v), v, v + 1) && PagesStay(s, Unmapped(s, pd, v))
  {
    LookupHas(s, pd, v);
    TableReady(s, pd, v);
    var f, t := Frame(Lookup(s, pd, v)), Unmapped(s, pd, v);
    forall g | g in s.own && s.own[g] == User(v) ensures g == f { assert OwnOk(s, pd, g); }
    hide SpaceOk;
    forall g | g in s.own && t.own[g] == s.own[g] && (s.own[g].User? || s.own[g].Busy?) ensures SamePage(s, t, g) {
      assert FrameOk(s, g);
    }
  }

  /** The plain loop: every page from `lo` to `hi` in turn. */
  function PageByPage(s: State, pd: nat, lo: nat, hi: nat): State
    decreases hi - lo
  {
    if lo >= hi then s else PageByPage(Unmapped(s, pd, lo), pd, lo + 1, hi)
  }

  /** An unmapped page is left as it is. */
  lemma UnmappedSame(s: State, pd: nat, v: nat)
    requires !Present(Lookup(s, pd, v))
    ensures Unmapped(s, pd, v) == s
  {
  }

  /** Where a directory entry is empty the plain loop does nothing up to the next one. */
  lemma {:induction false} SkipTable(s: State, pd: nat, a: nat, hi: nat)
    requires a < hi && !Present(Entry(s, pd, a / NENTRIES))
    ensures var next := (a / NENTRIES + 1) * NENTRIES;
            PageByPage(s, pd, a, hi) == if next < hi then PageByPage(s, pd, next, hi) else s
    decreases hi - a
  {
    UnmappedSame(s, pd, a);
    hide Unmapped;
    var d := a / NENTRIES;
    if a + 1 < hi && a + 1 < (d + 1) * NENTRIES {
      assert (a + 1) / NENTRIES == d;
      SkipTable(s, pd, a + 1, hi);
    }
  }

  lemma AfterBoth(s: State, m: State, t: State, pd: nat, lo: nat, mid: nat, hi: nat)
    requires lo <= mid <= hi && MapAfter(s, m, pd, lo, mid) && MapAfter(m, t, pd, mid, hi)
    requires OwnAfter(s, m, lo, mid) && OwnAfter(m, t, mid, hi) && PagesStay(s, m) && PagesStay(m, t)
    ensures MapAfter(s, t, pd, lo, hi) && OwnAfter(s, t, lo, hi) && PagesStay(s, t)
  {
    hide Lookup;
    forall f | f in s.own && f in t.own && t.own[f] == s.own[f] && (s.own[f].User? || s.own[f].Busy?)
      ensures SamePage(s, t, f)
    {
      assert SamePage(s, m, f) && SamePage(m, t, f);
    }
  }

  /** The plain loop frees exactly the user pages in its range and leaves every other page, every
      table and the rest of the map alone. */
  lemma {:induction false} PageByPageOk(s: State, pd: nat, lo: nat, hi: nat)
    requires Ok(s, pd) && lo <= hi <= USERPAGES
    ensures var t := PageByPage(s, pd, lo, hi);
            Ok(t, pd) && MapAfter(s, t, pd, lo, hi) && OwnAfter(s, t, lo, hi) && PagesStay(s, t)
    decreases hi - lo
  {
    hide KmemOk, SpaceOk, Lookup, Unmapped;
    if lo < hi {
      var m := Unmapped(s, pd, lo);
      if Present(Lookup(s, pd, lo)) {
        UnmappedOk(s, pd, lo);
      } else {
        UnmappedSame(s, pd, lo);
        NothingThere(s, pd, lo);
      }
      PageByPageOk(m, pd, lo + 1, hi);
      hide OwnAfter, MapAfter, PagesStay;
      AfterBoth(s, m, PageByPage(m, pd, lo + 1, hi), pd, lo, lo + 1, hi);
    } else {
      StaysItself(s);
    }
  }

  lemma StaysItself(s: State)
    requires KmemOk(s)
    ensures PagesStay(s, s)
  {
    forall f | f in s.own ensures SamePage(s, s, f) { assert FrameOk(s, f); }
  }

  lemma NothingThere(s: State, pd: nat, v: nat)
    requires Ok(s, pd) && v < USERPAGES && !Present(Lookup(s, pd, v))
    ensures MapAfter(s, s, pd, v, v + 1) && OwnAfter(s, s, v, v + 1) && PagesStay(s, s)
  {
    forall f | f in s.own ensures s.own[f] != User(v) && SamePage(s, s, f) { assert OwnOk(s, pd, f) && FrameOk(s, f); }
  }

  // ---- Growing

  /** memset of a page to 0. */
  function Zeroed(s: State, f: nat): State { s.(mem := s.mem[f := Filled(0)]) }

  /** How far growing by the pages from `lo` to `hi` may have changed who uses what: a free frame
      may have become a table or one of these pages, or `b`, which its caller holds. */
  ghost predicate OwnGrew(s: State, t: State, lo: nat, hi: nat, b: nat) {
    && t.own.Keys == s.own.Keys
    && forall f :: f in s.own ==> GrewTo(s.own[f], t.own[f], lo, hi, f == b)
  }

  predicate GrewTo(o: Owner, p: Owner, lo: nat, hi: nat, held: bool) {
    if o == Free then p.Free? || p.Table? || (p.User? && lo <= p.v < hi) || (p.Busy? && held) else p == o
  }

  /** Page `u` is mapped, writable by the user, on a zeroed frame that was free in `s`. */
  ghost predicate FreshPage(s: State, t: State, pd: nat, u: nat) {
    var w := Lookup(t, pd, u);
    Present(w) && Open(w) && Frame(w) in s.own && s.own[Frame(w)] == Free && ZeroPage(t, Frame(w))
  }

  /** The map of `s` with fresh pages from `lo` to `hi`. */
  ghost predicate MapGrew(s: State, t: State, pd: nat, lo: nat, hi: nat) {
    forall u :: 0 <= u < NENTRIES * NENTRIES ==>
      if lo <= u < hi then FreshPage(s, t, pd, u) else Lookup(t, pd, u) == Lookup(s, pd, u)
  }

  ghost predicate Grown(s: State, t: State, pd: nat, lo: nat, hi: nat, b: nat) {
    MapGrew(s, t, pd, lo, hi) && OwnGrew(s, t, lo, hi, b) && PagesStay(s, t)
  }

  lemma GrownItself(s: State, pd: nat, lo: nat)
    requires KmemOk(s)
    ensures Grown(s, s, pd, lo, lo, 0)
  {
    StaysItself(s);
  }

  /** Taking and zeroing a page. */
  lemma HeldOk(s: State, pd: nat)
    requires Ok(s, pd) && |s.free| > 0
    ensures var f := s.free[0]; var t := Zeroed(Taken(s), f);
            && Ok(t, pd) && f in t.own && t.own[f] == Busy && f in s.own && s.own[f] == Free && f != 0 && ZeroPage(t, f)
            && Grown(s, t, pd, 0, 0, f)
  {
    var f := s.free[0];
    var m := Taken(s);
    TakenOk(s);
    assert FrameOk(s, f);
    BusySteps(s, m, pd, f);
    var t := Zeroed(m, f);
    BusySteps(m, t, pd, f);
    KmemStays(m, t) by { forall g | g in m.own ensures FrameOk(t, g) { assert FrameOk(m, g); } }
    hide SpaceOk, Lookup;
    forall g | g in s.own && t.own[g] == s.own[g] && (s.own[g].User? || s.own[g].Busy?) ensures SamePage(s, t, g) {
      assert FrameOk(s, g);
    }
  }

  /** Growth in two stages, at most one of which leaves a page held. */
  lemma GrownTwice(s: State, m: State, t: State, pd: nat, lo: nat, hi: nat, b: nat, c: nat)
    requires Grown(s, m, pd, lo, hi, b) && Grown(m, t, pd, 0, 0, c)
    requires Ok(m, pd) && hi <= USERPAGES && (b == 0 || c == 0)
    ensures Grown(s, t, pd, lo, hi, if c == 0 then b else c)
  {
    forall u | lo <= u < hi ensures FreshPage(s, t, pd, u) { FreshStays(s, m, t, pd, u, c); }
    OwnTwice(s, m, t, lo, hi, b, c);
    hide Lookup, SpaceOk, KmemOk, OwnGrew, PagesStay;
  }

  lemma OwnTwice(s: State, m: State, t: State, lo: nat, hi: nat, b: nat, c: nat)
    requires OwnGrew(s, m, lo, hi, b) && OwnGrew(m, t, 0, 0, c) && PagesStay(s, m) && PagesStay(m, t)
    requires 0 !in s.own && (b == 0 || c == 0)
    ensures OwnGrew(s, t, lo, hi, if c == 0 then b else c) && PagesStay(s, t)
  {
    forall f | f in s.own && f in t.own && t.own[f] == s.own[f] && (s.own[f].User? || s.own[f].Busy?)
      ensures SamePage(s, t, f)
    {
      assert GrewTo(s.own[f], m.own[f], lo, hi, f == b) && GrewTo(m.own[f], t.own[f], 0, 0, f == c);
      assert SamePage(s, m, f) && SamePage(m, t, f);
    }
    forall f | f in s.own ensures GrewTo(s.own[f], t.own[f], lo, hi, f == if c == 0 then b else c) {
      assert GrewTo(s.own[f], m.own[f], lo, hi, f == b) && GrewTo(m.own[f], t.own[f], 0, 0, f == c);
    }
  }

  lemma FreshStays(s: State, m: State, t: State, pd: nat, u: nat, b: nat)
    requires FreshPage(s, m, pd, u) && Grown(m, t, pd, 0, 0, b) && Ok(m, pd) && u < USERPAGES
    ensures FreshPage(s, t, pd, u)
  {
    var w := Lookup(m, pd, u);
    assert UserOk(m, pd, u) && Lookup(t, pd, u) == w;
    assert GrewTo(m.own[Frame(w)], t.own[Frame(w)], 0, 0, Frame(w) == b);
    assert SamePage(m, t, Frame(w));
    forall k | 0 <= k < NENTRIES ensures Entry(t, Frame(w), k) == 0 { assert Entry(m, Frame(w), k) == 0; }
  }

  /** The held page `f` is put to use as a table or as one of the new pages. */
  lemma OwnThen(s: State, m: State, t: State, lo: nat, hi: nat, top: nat, f: nat)
    requires OwnGrew(s, m, lo, hi, f) && PagesStay(s, m) && hi <= top && f in s.own && s.own[f] == Free
    requires f in t.own && t.own == m.own[f := t.own[f]]
    requires (t.own[f].Table? || (t.own[f].User? && lo <= t.own[f].v < top))
    requires forall g :: g in m.own && (m.own[g].User? || m.own[g].Busy?) ==> SamePage(m, t, g)
    ensures OwnGrew(s, t, lo, top, 0) && PagesStay(s, t)
  {
    forall g | g in s.own ensures GrewTo(s.own[g], t.own[g], lo, top, g == 0) {
      assert GrewTo(s.own[g], m.own[g], lo, hi, g == f);
    }
    forall g | g in s.own && t.own[g] == s.own[g] && (s.own[g].User? || s.own[g].Busy?) ensures SamePage(s, t, g) {
      assert GrewTo(s.own[g], m.own[g], lo, hi, g == f);
      assert SamePage(s, m, g);
    }
  }

  /** A write to one page leaves the pages of other uses. */
  lemma OthersSame(s: State, f: nat, k: nat, w: nat, own: map<nat, Owner>)
    requires KmemOk(s) && f in s.own && !s.own[f].User? && !s.own[f].Busy? && f in s.mem && k < |s.mem[f]|
    ensures forall g :: g in s.own && (s.own[g].User? || s.own[g].Busy?) ==>
      SamePage(s, SetEntry(s, f, k, w).(own := own), g)
  {
    forall g | g in s.own && (s.own[g].User? || s.own[g].Busy?)
      ensures SamePage(s, SetEntry(s, f, k, w).(own := own), g)
    {
      assert FrameOk(s, g);
    }
  }

  /** A new table maps nothing. */
  lemma TableGrows(s: State, m: State, pd: nat, i: nat, f: nat)
    requires Ok(s, pd) && Ok(m, pd) && Grown(s, m, pd, 0, 0, f) && f in m.own && m.own[f] == Busy && ZeroPage(m, f)
    requires i < NENTRIES && Entry(m, pd, i) == 0 && f in s.own && s.own[f] == Free
    ensures FrameOk(m, pd) && Ok(WithTable(m, pd, i, f), pd) && Grown(s, WithTable(m, pd, i, f), pd, 0, 0, 0)
  {
    WithTableOk(m, pd, i, f);
    var t := WithTable(m, pd, i, f);
    forall u | 0 <= u < NENTRIES * NENTRIES ensures Lookup(t, pd, u) == Lookup(s, pd, u) {
      WithTableLookup(m, pd, i, f, u);
    }
    assert m.own[pd] == Dir;
    OthersSame(m, pd, i, Pte(f), t.own);
    hide Lookup, KmemOk, SpaceOk, OwnGrew, PagesStay;
    OwnThen(s, m, t, 0, 0, 0, f);
  }

  function MapUser(s: State, pd: nat, v: nat, f: nat): State
    requires TableOf(s, pd, v) in s.mem && |s.mem[TableOf(s, pd, v)]| == NENTRIES
  {
    SetEntry(s, TableOf(s, pd, v), v % NENTRIES, Pte(f)).(own := s.own[f := User(v)])
  }

  /** The held, zeroed page `f` becomes page `v` of the space. */
  lemma MapGrows(s: State, m: State, pd: nat, lo: nat, v: nat, f: nat)
    requires Ok(s, pd) && Ok(m, pd) && Grown(s, m, pd, lo, v, f) && f in m.own && m.own[f] == Busy && ZeroPage(m, f)
    requires f in s.own && s.own[f] == Free && lo <= v < USERPAGES && HasTable(m, pd, v) && !Present(Lookup(m, pd, v))
    ensures FrameOk(m, TableOf(m, pd, v))
    ensures Ok(MapUser(m, pd, v, f), pd) && Grown(s, MapUser(m, pd, v, f), pd, lo, v + 1, 0)
  {
    TableReady(m, pd, v);
    var t := MapUser(m, pd, v, f);
    PteWriteKeeps(m, t, pd, v, Pte(f), f);
    MapGrowsMap(s, m, t, pd, lo, v, f);
    OthersSame(m, TableOf(m, pd, v), v % NENTRIES, Pte(f), t.own);
    hide Lookup, KmemOk, SpaceOk, OwnGrew, PagesStay, MapGrew, MapPut;
    OwnThen(s, m, t, lo, v, v + 1, f);
  }

  lemma MapGrowsMap(s: State, m: State, t: State, pd: nat, lo: nat, v: nat, f: nat)
    requires Ok(m, pd) && MapGrew(s, m, pd, lo, v) && MapPut(m, t, pd, v, Pte(f)) && lo <= v < USERPAGES
    requires f in s.own && s.own[f] == Free && f in m.own && m.own[f] == Busy && ZeroPage(m, f)
    requires forall g, k :: g in m.own && (g == f || m.own[g].User?) ==> Entry(t, g, k) == Entry(m, g, k)
    ensures MapGrew(s, t, pd, lo, v + 1)
  {
    forall u | lo <= u < v + 1 ensures FreshPage(s, t, pd, u) {
      if u < v {
        assert FreshPage(s, m, pd, u) && UserOk(m, pd, u) && Lookup(t, pd, u) == Lookup(m, pd, u);
      } else {
        assert Lookup(t, pd, u) == Pte(f);
      }
    }
  }

  // ---- What growing costs

  /** 1 if page `v` has no table yet. */
  ghost function Missing(s: State, pd: nat, v: nat): nat { if HasTable(s, pd, v) then 0 else 1 }

  /** The frames that the pages from `lo` to `hi` take: one each, and one for every table that is
      missing, counted at the first page that needs it. */
  ghost function Frames(s: State, pd: nat, lo: nat, hi: nat): nat
    decreases hi
  {
    if hi <= lo then 0
    else Frames(s, pd, lo, hi - 1) + 1 + if hi - 1 == lo || (hi - 1) % NENTRIES == 0 then Missing(s, pd, hi - 1) else 0
  }

  lemma {:induction false} FramesGrow(s: State, pd: nat, lo: nat, a: nat, hi: nat)
    requires a <= hi
    ensures Frames(s, pd, lo, a) <= Frames(s, pd, lo, hi)
    decreases hi
  {
    if a < hi { FramesGrow(s, pd, lo, a, hi - 1); }
  }

  /** The directory of `t` is that of `s` with a table for page `v`. */
  ghost predicate TableAdded(s: State, t: State, pd: nat, v: nat) {
    && Present(Entry(t, pd, v / NENTRIES))
    && forall i :: 0 <= i < NENTRIES && i != v / NENTRIES ==> Entry(t, pd, i) == Entry(s, pd, i)
  }

  predicate DirHas(s: State, t: State, pd: nat, lo: nat, a: nat, i: nat) {
    Present(Entry(t, pd, i)) <==> Present(Entry(s, pd, i)) || (lo < a && lo / NENTRIES <= i <= (a - 1) / NENTRIES)
  }

  /** From `s` to `t` the pages from `lo` to `a` were paid for, and their tables are there. */
  ghost predicate Spent(s: State, t: State, pd: nat, lo: nat, a: nat) {
    && lo <= a && |t.free| + Frames(s, pd, lo, a) == |s.free|
    && forall i :: 0 <= i < NENTRIES ==> DirHas(s, t, pd, lo, a, i)
  }

  lemma GrowthStarts(s: State, pd: nat, lo: nat)
    requires Ok(s, pd)
    ensures Grown(s, s, pd, lo, lo, 0) && Spent(s, s, pd, lo, lo)
  {
    GrownItself(s, pd, lo);
  }

  lemma SpentNext(s: State, m: State, pd: nat, lo: nat, a: nat)
    requires Spent(s, m, pd, lo, a) && a < USERPAGES
    ensures Frames(s, pd, lo, a + 1) == Frames(s, pd, lo, a) + 1 + Missing(m, pd, a)
  {
    assert DirHas(s, m, pd, lo, a, a / NENTRIES);
  }

  lemma SpentStep(s: State, m: State, t: State, pd: nat, lo: nat, a: nat)
    requires Spent(s, m, pd, lo, a) && a < USERPAGES && TableAdded(m, t, pd, a)
    requires |t.free| + 1 + Missing(m, pd, a) == |m.free|
    ensures Spent(s, t, pd, lo, a + 1)
  {
    SpentNext(s, m, pd, lo, a);
    var b := a + 1;
    forall i | 0 <= i < NENTRIES ensures DirHas(s, t, pd, lo, b, i) {
      assert DirHas(s, m, pd, lo, a, i);
    }
  }

  lemma SpentAll(s: State, t: State, pd: nat, lo: nat, a: nat)
    requires Spent(s, t, pd, lo, a)
    ensures |s.free| >= Frames(s, pd, lo, a)
  {
  }

  /** When one page more cannot be had, neither can all of them. */
  lemma SpentStop(s: State, m: State, pd: nat, lo: nat, a: nat, hi: nat)
    requires Spent(s, m, pd, lo, a) && a < hi && a < USERPAGES && |m.free| < 1 + Missing(m, pd, a)
    ensures |s.free| < Frames(s, pd, lo, hi)
  {
    SpentNext(s, m, pd, lo, a);
    FramesGrow(s, pd, lo, a + 1, hi);
  }

  /** Taking a page for oneself first leaves the directory and the tables as they are. */
  lemma AddedAfter(s: State, h: State, t: State, pd: nat, v: nat)
    requires forall i :: 0 <= i < NENTRIES ==> Entry(h, pd, i) == Entry(s, pd, i)
    requires v < NENTRIES * NENTRIES
    ensures Missing(h, pd, v) == Missing(s, pd, v)
    ensures TableAdded(h, t, pd, v) ==> TableAdded(s, t, pd, v)
  {
  }

  /** The same pages are mapped, to the same frames. */
  ghost predicate SameMap(s: State, t: State, pd: nat) {
    forall u :: 0 <= u < NENTRIES * NENTRIES ==>
      (Present(Lookup(s, pd, u)) || Present(Lookup(t, pd, u)) ==> Lookup(t, pd, u) == Lookup(s, pd, u))
  }

  /** As before, but for tables that stay allocated, and `b` if it is still held. */
  ghost predicate Restored(s: State, t: State, pd: nat, b: nat) {
    SameMap(s, t, pd) && OwnGrew(s, t, 0, 0, b) && PagesStay(s, t)
  }

  lemma RestoredBy(s: State, m: State, t: State, pd: nat, lo: nat, a: nat, hi: nat, b: nat)
    requires Grown(s, m, pd, lo, a, b) && lo <= a <= hi && MapAfter(m, t, pd, lo, hi)
    requires OwnAfter(m, t, lo, hi) && PagesStay(m, t)
    requires forall u :: lo <= u < hi ==> !Present(Lookup(s, pd, u))
    requires forall f :: f in s.own && s.own[f].User? ==> s.own[f].v < lo
    ensures Restored(s, t, pd, b)
  {
    hide Lookup;
    forall f | f in s.own ensures GrewTo(s.own[f], t.own[f], 0, 0, f == b) {
      assert GrewTo(s.own[f], m.own[f], lo, a, f == b);
    }
    forall f | f in s.own && f in t.own && t.own[f] == s.own[f] && (s.own[f].User? || s.own[f].Busy?)
      ensures SamePage(s, t, f)
    {
      assert GrewTo(s.own[f], m.own[f], lo, a, f == b);
      assert SamePage(s, m, f) && SamePage(m, t, f);
    }
  }

  /** The held page is given back at last. */
  lemma RestoredGiven(s: State, m: State, pd: nat, b: nat)
    requires Ok(m, pd) && Restored(s, m, pd, b) && b in m.own && m.own[b] == Busy && b in s.own && s.own[b] == Free
    ensures Ok(Given(m, b), pd) && Restored(s, Given(m, b), pd, 0)
  {
    var t := Given(m, b);
    GivenOk(m, b);
    BusySteps(m, t, pd, b);
    hide Lookup, KmemOk, SpaceOk;
    forall f | f in s.own ensures GrewTo(s.own[f], t.own[f], 0, 0, f == 0) {
      assert GrewTo(s.own[f], m.own[f], 0, 0, f == b);
    }
    forall f | f in s.own && f in t.own && t.own[f] == s.own[f] && (s.own[f].User? || s.own[f].Busy?)
      ensures SamePage(s, t, f)
    {
      assert GrewTo(s.own[f], m.own[f], 0, 0, f == b);
      assert SamePage(s, m, f);
    }
  }

  /** The frames from `lo` to `hi`, last first. */
  function Downward(lo: nat, hi: nat): seq<nat>
    decreases hi
  {
    if hi <= lo then [] else [hi - 1] + Downward(lo, hi - 1)
  }

  /** The frames from `lo` to `hi` have become free, all others are as they were. */
  ghost predicate RangeFreed(o: map<nat, Owner>, p: map<nat, Owner>, lo: nat, hi: nat) {
    p.Keys == o.Keys && forall f :: f in p ==> p[f] == if lo <= f < hi then Free else o[f]
  }

  lemma RangeStarts(o: map<nat, Owner>, free: seq<nat>, lo: nat)
    ensures RangeFreed(o, o, lo, lo) && Downward(lo, lo) + free == free
  {
  }

  lemma RangeEmpty(o: map<nat, Owner>, p: map<nat, Owner>, lo: nat, hi: nat)
    requires hi < lo && RangeFreed(o, p, lo, lo)
    ensures RangeFreed(o, p, lo, hi) && Downward(lo, lo) == Downward(lo, hi)
  {
  }

  lemma RangeStep(o: map<nat, Owner>, p: map<nat, Owner>, lo: nat, k: nat, free: seq<nat>)
    requires RangeFreed(o, p, lo, k) && lo <= k && k in o && o[k] == Busy
    ensures k in p && p[k] == Busy && RangeFreed(o, p[k := Free], lo, k + 1)
    ensures Downward(lo, k + 1) + free == [k] + (Downward(lo, k) + free)
  {
    assert p[k := Free].Keys == p.Keys;
  }

  lemma WholePage(p: nat, vend: nat)
    ensures PGSIZE * p + PGSIZE <= vend <==> p < vend / PGSIZE
  {
  }

  /** A zeroed directory is a space in which nothing is mapped. */
  lemma DirectoryOk(s: State)
    requires KmemOk(s) && |s.free| > 0 && forall f :: f in s.own ==> s.own[f] == Free || s.own[f] == Busy
    ensures s.free[0] != 0
    ensures
      var pd := s.free[0];
      var t := Zeroed(Taken(s), pd);
      Ok(t.(own := t.own[pd := Dir]), pd) && MappedTo(t.(own := t.own[pd := Dir]), pd, 0)
  {
    TakenOk(s);
    var pd, m := s.free[0], Taken(s);
    var t := Zeroed(m, pd).(own := m.own[pd := Dir]);
    assert FrameOk(s, pd);
    forall f | f in t.own ensures FrameOk(t, f) { assert FrameOk(m, f); }
    forall k | 0 <= k < |t.free| ensures LinkOk(t, k) { assert LinkOk(m, k); }
    assert KmemOk(t);
    hide KmemOk;
    forall i: nat ensures Entry(t, pd, i) == 0 {}
    forall f | f in t.own ensures OwnOk(t, pd, f) {}
    forall v | 0 <= v < USERPAGES ensures Lookup(t, pd, v) == 0 && UserOk(t, pd, v) {
      assert Entry(t, pd, v / NENTRIES) == 0;
    }
  }

  // ---- Growth as the processor sees it

  lemma WalkIsLookup(s: State, pd: nat, va: nat)
    requires SpaceOk(s, pd) && va < 0x1_0000_0000
    ensures Faults(s.mem, pd, va) <==> !Present(Lookup(s, pd, va / PGSIZE))
    ensures !Faults(s.mem, pd, va) ==> Walk(s.mem, pd, va) == Lookup(s, pd, va / PGSIZE)
    ensures !Faults(s.mem, pd, va) && Open(Lookup(s, pd, va / PGSIZE)) ==> UserMay(s.mem, pd, va)
  {
    var v := va / PGSIZE;
    Indices(va);
    assert DirOk(s, pd, v / NENTRIES);
    hide SpaceOk, Present;
    PresentIs(Entry(s, pd, v / NENTRIES));
    PresentIs(Lookup(s, pd, v));
  }

  lemma Indices(va: nat)
    ensures va / PGSIZE / NENTRIES == va / 0x40_0000 && va / PGSIZE % NENTRIES == va / 0x1000 % 0x400
  {
  }

  lemma PresentIs(w: nat)
    ensures Present(w) <==> w % 2 == 1
  {
  }

  /** Address `va` lies on a page that was not there: the user may use it, and it reads as zero from a page
      that was free. */
  ghost predicate NewByte(s: State, t: State, pd: nat, va: nat) {
    && Faults(s.mem, pd, va) && UserMay(t.mem, pd, va)
    && var f := Physical(t.mem, pd, va) / 0x1000;
       f in s.free && forall k: nat :: WordAt(t.mem, f, k) == 0
  }

  /** Address `va` is as before: the same physical byte, or none. */
  predicate OldByte(s: State, t: State, pd: nat, va: nat) {
    && (Faults(t.mem, pd, va) <==> Faults(s.mem, pd, va))
    && (UserMay(t.mem, pd, va) <==> UserMay(s.mem, pd, va))
    && (!Faults(s.mem, pd, va) ==> Physical(t.mem, pd, va) == Physical(s.mem, pd, va))
  }

  lemma GrownByte(s: State, t: State, pd: nat, lo: nat, hi: nat, va: nat)
    requires Ok(s, pd) && Ok(t, pd) && Grown(s, t, pd, lo, hi, 0) && va < 0x1_0000_0000
    requires lo <= va / PGSIZE < hi ==> !Present(Lookup(s, pd, va / PGSIZE))
    ensures if lo <= va / PGSIZE < hi then NewByte(s, t, pd, va) else OldByte(s, t, pd, va)
  {
    WalkIsLookup(s, pd, va);
    WalkIsLookup(t, pd, va);
    var v := va / PGSIZE;
    if lo <= v < hi {
      assert FreshPage(s, t, pd, v);
      var w := Lookup(t, pd, v);
      assert Physical(t.mem, pd, va) / 0x1000 == Frame(w);
      assert FrameOk(t, Frame(w));
      forall k: nat ensures WordAt(t.mem, Frame(w), k) == 0 { assert k < NENTRIES ==> Entry(t, Frame(w), k) == 0; }
    } else {
      SameByte(s, t, pd, va);
    }
  }

  lemma SameByte(s: State, t: State, pd: nat, va: nat)
    requires SpaceOk(s, pd) && SpaceOk(t, pd) && va < 0x1_0000_0000
    requires Lookup(t, pd, va / PGSIZE) == Lookup(s, pd, va / PGSIZE)
    ensures OldByte(s, t, pd, va)
  {
    WalkIsLookup(s, pd, va);
    WalkIsLookup(t, pd, va);
    assert va / 0x40_0000 == va / PGSIZE / NENTRIES;
    assert DirOk(s, pd, va / 0x40_0000) && DirOk(t, pd, va / 0x40_0000);
  }

  /** All addresses, with the new pages from `lo` to `hi`. */
  ghost predicate NewBytes(s: State, t: State, pd: nat, lo: nat, hi: nat) {
    forall va: nat :: va < 0x1_0000_0000 ==>
      if lo <= va / 0x1000 < hi then NewByte(s, t, pd, va) else OldByte(s, t, pd, va)
  }

  /** All addresses, without the pages from `lo` to `hi`. */
  ghost predicate GoneBytes(s: State, t: State, pd: nat, lo: nat, hi: nat) {
    forall va: nat :: va < 0x1_0000_0000 ==>
      if lo <= va / 0x1000 < hi then Faults(t.mem, pd, va) else OldByte(s, t, pd, va)
  }

  lemma GrownBytes(s: State, t: State, pd: nat, lo: nat, hi: nat)
    requires Ok(s, pd) && Ok(t, pd) && Grown(s, t, pd, lo, hi, 0) && MappedTo(s, pd, lo) && hi <= USERPAGES
    ensures NewBytes(s, t, pd, lo, hi)
  {
    hide Ok, Grown, NewByte, OldByte, Lookup;
    forall va: nat | va < 0x1_0000_0000
      ensures if lo <= va / 0x1000 < hi then NewByte(s, t, pd, va) else OldByte(s, t, pd, va)
    {
      GrownByte(s, t, pd, lo, hi, va);
    }
  }

  lemma GoneAll(s: State, t: State, pd: nat, lo: nat, hi: nat)
    requires Ok(s, pd) && Ok(t, pd) && MapAfter(s, t, pd, lo, hi)
    ensures GoneBytes(s, t, pd, lo, hi)
  {
    forall va: nat | va < 0x1_0000_0000
      ensures if lo <= va / 0x1000 < hi then Faults(t.mem, pd, va) else OldByte(s, t, pd, va)
    {
      WalkIsLookup(t, pd, va);
      if !(lo <= va / 0x1000 < hi) { SameByte(s, t, pd, va); }
    }
  }

  lemma NothingNew(s: State, pd: nat)
    ensures forall va: nat :: va < 0x1_0000_0000 ==> OldByte(s, s, pd, va)
  {
  }

  lemma RestoredBytes(s: State, t: State, pd: nat, b: nat)
    requires Ok(s, pd) && Ok(t, pd) && Restored(s, t, pd, b)
    ensures forall va: nat :: va < 0x1_0000_0000 ==> OldByte(s, t, pd, va)
  {
    forall va: nat | va < 0x1_0000_0000 ensures OldByte(s, t, pd, va) {
      WalkIsLookup(s, pd, va);
      WalkIsLookup(t, pd, va);
      if Present(Lookup(s, pd, va / PGSIZE)) { SameByte(s, t, pd, va); }
    }
  }

  lemma MappedHere(m: State, pd: nat, v: nat, f: nat)
    requires Ok(m, pd) && HasTable(m, pd, v) && FrameOk(m, TableOf(m, pd, v)) && v < USERPAGES
    requires Ok(MapUser(m, pd, v, f), pd)
    ensures
      var t := MapUser(m, pd, v, f);
      UserMay(t.mem, pd, 0x1000 * v) && Physical(t.mem, pd, 0x1000 * v) == 0x1000 * f
  {
    PteWritten(m, pd, v, Pte(f), v);
    var t := MapUser(m, pd, v, f);
    assert t.mem == SetEntry(m, TableOf(m, pd, v), v % NENTRIES, Pte(f)).mem;
    assert Lookup(t, pd, v) == Pte(f);
    assert 0x1000 * v / PGSIZE == v;
    WalkIsLookup(t, pd, 0x1000 * v);
  }

  // ---- The code

  function RoundUp(n: nat): (p: nat)
    ensures p * PGSIZE >= n > (p - 1) * PGSIZE
  {
    (n + PGSIZE - 1) / PGSIZE
  }

  const KERNBASE: nat := 0x8000_0000

  datatype MapResult = Done | NoMemory | PanicRemap

  class Memory {
    var mem: map<nat, Page>
    var freelist: nat
    ghost var free: seq<nat>
    ghost var own: map<nat, Owner>

    ghost function S(): State
      reads this
    {
      State(mem, freelist, free, own)
    }

    /** The frames that the kernel will manage, none of them in the allocator yet. */
    constructor (frames: map<nat, Page>)
      requires forall f :: f in frames ==> f > 0 && |frames[f]| == NENTRIES
      ensures KmemOk(S()) && mem == frames && free == [] && own == map f | f in frames :: Busy
    {
      mem, freelist, free, own := frames, 0, [], map f | f in frames :: Busy;
      new;
      forall f | f in own ensures FrameOk(S(), f) {}
    }

    /** freerange: the whole pages between two addresses go to the allocator, the last one first in
        its list. */
    method Freerange(vstart: nat, vend: nat)
      requires KmemOk(S()) && forall f :: RoundUp(vstart) <= f < vend / PGSIZE ==> f in own && own[f] == Busy
      modifies this
      ensures KmemOk(S()) && free == Downward(RoundUp(vstart), vend / PGSIZE) + old(free)
      ensures RangeFreed(old(own), own, RoundUp(vstart), vend / PGSIZE)
    {
      hide KmemOk, RoundUp, Downward, RangeFreed, Filled;
      ghost var lo, hi := RoundUp(vstart), vend / PGSIZE;
      var p := RoundUp(vstart);
      RangeStarts(own, free, lo);
      WholePage(p, vend);
      while PGSIZE * p + PGSIZE <= vend
        invariant lo <= p && (p <= hi || p == lo) && (PGSIZE * p + PGSIZE <= vend <==> p < hi)
        invariant KmemOk(S()) && free == Downward(lo, p) + old(free) && RangeFreed(old(own), own, lo, p)
        decreases hi - p
      {
        RangeStep(old(own), own, lo, p, old(free));
        WholePage(p + 1, vend);
        Kfree(p);
        p := p + 1;
      }
      if hi < lo { RangeEmpty(old(own), own, lo, hi); }
    }

    /** The start of setupkvm: a zeroed directory for a new address space, when no frame is in use for
        another one. */
    method NewDirectory() returns (pd: nat)
      requires KmemOk(S()) && forall f :: f in own ==> own[f] == Free || own[f] == Busy
      modifies this
      ensures pd == 0 <==> |old(free)| == 0
      ensures pd == 0 ==> S() == old(S())
      ensures pd != 0 ==> Ok(S(), pd) && MappedTo(S(), pd, 0) && |free| + 1 == |old(free)|
    {
      hide KmemOk, SpaceOk, MappedTo;
      if |free| > 0 { DirectoryOk(S()); }
      pd := Kalloc();
      if pd == 0 { return; }
      mem := mem[pd := Filled(0)];
      own := own[pd := Dir];
    }

    method Kalloc() returns (f: nat)
      requires KmemOk(S())
      modifies this
      ensures |old(free)| == 0 ==> f == 0 && S() == old(S())
      ensures |old(free)| > 0 ==> f == old(free)[0] != 0 && S() == Taken(old(S())) && KmemOk(S())
    {
      f := freelist;
      if |free| > 0 { TakenOk(S()); }
      if f != 0 {
        assert FrameOk(S(), f) && LinkOk(S(), 0);
        freelist := mem[f][0];
        own := own[f := Busy];
        free := free[1..];
      }
    }

    method Kfree(f: nat)
      requires KmemOk(S()) && f in own && own[f] != Free
      modifies this
      ensures S() == Given(old(S()), f) && KmemOk(S())
    {
      GivenOk(S(), f);
      var page: Page := Filled(JUNK)[0 := freelist];
      mem := mem[f := page];
      freelist := f;
      own := own[f := Free];
      free := [f] + free;
    }

    /** kalloc and memset: a zeroed page that the caller holds. */
    method ZeroedPage(ghost pd: nat) returns (f: nat)
      requires Ok(S(), pd)
      modifies this
      ensures Ok(S(), pd) && (f == 0 <==> |old(free)| == 0)
      ensures f == 0 ==> S() == old(S())
      ensures f != 0 ==> f in old(own) && old(own[f]) == Free && f in own && own[f] == Busy && ZeroPage(S(), f)
      ensures f != 0 ==> Grown(old(S()), S(), pd, 0, 0, f)
      ensures f != 0 ==> f != pd && |free| + 1 == |old(free)|
      ensures forall g, k :: g != f ==> Entry(S(), g, k) == Entry(old(S()), g, k)
    {
      hide SpaceOk, Grown;
      DirIsDir(S(), pd);
      if |free| > 0 { HeldOk(S(), pd); }
      f := Kalloc();
      if f == 0 { return; }
      mem := mem[f := Filled(0)];
    }

    /** walkpgdir's missing table. */
    method NewTable(pd: nat, i: nat) returns (tab: nat)
      requires Ok(S(), pd) && i < NENTRIES && Entry(S(), pd, i) == 0
      modifies this
      ensures Ok(S(), pd) && Grown(old(S()), S(), pd, 0, 0, 0)
      ensures tab == 0 <==> |old(free)| == 0
      ensures tab == 0 ==> S() == old(S())
      ensures tab != 0 ==> Entry(S(), pd, i) == Pte(tab) && |free| + 1 == |old(free)|
      ensures forall k :: 0 <= k < NENTRIES && k != i ==> Entry(S(), pd, k) == Entry(old(S()), pd, k)
    {
      hide SpaceOk, KmemOk, Grown, Lookup;
      ghost var s := S();
      GrownItself(s, pd, 0);
      DirIsDir(s, pd);
      tab := ZeroedPage(pd);
      if tab == 0 { return; }
      ghost var m := S();
      TableGrows(s, m, pd, i, tab);
      var page: Page := mem[pd][i := Pte(tab)];
      mem := mem[pd := page];
      own := own[tab := Table(i)];
      assert S() == WithTable(m, pd, i, tab);
    }

    method Walkpgdir(pd: nat, v: nat, alloc: bool) returns (tab: nat)
      requires Ok(S(), pd) && v < NENTRIES * NENTRIES
      modifies this
      ensures Ok(S(), pd) && Grown(old(S()), S(), pd, 0, 0, 0)
      ensures tab == 0 <==> !HasTable(S(), pd, v)
      ensures tab == 0 || HasTable(old(S()), pd, v) || !alloc ==> S() == old(S())
      ensures alloc ==> (tab == 0 <==> !HasTable(old(S()), pd, v) && |old(free)| == 0)
      ensures alloc && tab != 0 ==> TableAdded(old(S()), S(), pd, v) && |free| + Missing(old(S()), pd, v) == |old(free)|
      ensures tab != 0 ==> tab == TableOf(S(), pd, v) && tab in mem && |mem[tab]| == NENTRIES
    {
      hide SpaceOk, KmemOk, Grown, Lookup;
      ghost var s := S();
      DirReady(s, pd);
      GrownItself(s, pd, 0);
      DirEntry(s, pd, v / NENTRIES);
      var e := mem[pd][v / NENTRIES];
      if Present(e) {
        TableReady(s, pd, v);
        return Frame(e);
      }
      if !alloc { return 0; }
      tab := NewTable(pd, v / NENTRIES);
      if tab != 0 {
        assert HasTable(S(), pd, v);
        TableReady(S(), pd, v);
      }
    }

    /** mappages for one page that its caller holds. */
    method Mappage(pd: nat, v: nat, f: nat, ghost s0: State, ghost lo: nat) returns (r: MapResult)
      requires Ok(S(), pd) && lo <= v < USERPAGES && f in own && own[f] == Busy && ZeroPage(S(), f)
      requires Ok(s0, pd) && Grown(s0, S(), pd, lo, v, f) && f in s0.own && s0.own[f] == Free
      modifies this
      ensures r == PanicRemap <==> Present(Lookup(old(S()), pd, v))
      ensures r == NoMemory <==> !HasTable(old(S()), pd, v) && |old(free)| == 0
      ensures r == NoMemory ==> S() == old(S())
      ensures r == Done ==> Ok(S(), pd) && Grown(s0, S(), pd, lo, v + 1, 0)
      ensures r == Done ==> UserMay(mem, pd, 0x1000 * v) && Physical(mem, pd, 0x1000 * v) == 0x1000 * f
      ensures r == Done ==> TableAdded(old(S()), S(), pd, v) && |free| + Missing(old(S()), pd, v) == |old(free)|
    {
      hide SpaceOk, KmemOk, Grown, Lookup, ZeroPage;
      ghost var s := S();
      var tab := Walkpgdir(pd, v, true);
      ghost var m := S();
      LookupKept(s, m, pd, v);
      if tab == 0 { return NoMemory; }
      if Present(mem[tab][v % NENTRIES]) { return PanicRemap; }
      TableReady(m, pd, v);
      HeldStays(s, m, pd, f);
      GrownTwice(s0, s, m, pd, lo, v, f, 0);
      MapGrows(s0, m, pd, lo, v, f);
      var page: Page := mem[tab][v % NENTRIES := Pte(f)];
      mem := mem[tab := page];
      own := own[f := User(v)];
      assert S() == MapUser(m, pd, v, f);
      MappedHere(m, pd, v, f);
      return Done;
    }

    method Deallocuvm(pd: nat, oldsz: nat, newsz: nat) returns (sz: nat)
      requires Ok(S(), pd) && oldsz <= KERNBASE
      modifies this
      ensures sz == if newsz >= oldsz then oldsz else newsz
      ensures newsz >= oldsz ==> S() == old(S())
      ensures newsz < oldsz ==> S() == PageByPage(old(S()), pd, RoundUp(newsz), RoundUp(oldsz)) && Ok(S(), pd)
      ensures newsz < oldsz ==> GoneBytes(old(S()), S(), pd, (newsz + 0xFFF) / 0x1000, (oldsz + 0xFFF) / 0x1000)
    {
      hide GoneBytes;
      if newsz >= oldsz { return oldsz; }
      var a := RoundUp(newsz);
      ghost var s, hi := S(), RoundUp(oldsz);
      PageByPageOk(s, pd, a, hi);
      hide Ok, PageByPage;
      while PGSIZE * a < oldsz
        invariant hi <= USERPAGES && Ok(S(), pd) && (PGSIZE * a < oldsz <==> a < hi)
        invariant PageByPage(S(), pd, a, hi) == PageByPage(s, pd, RoundUp(newsz), hi)
        decreases hi - a
      {
        a := Turn(pd, a, hi);
      }
      NoPagesLeft(S(), pd, a, hi);
      GoneAll(s, S(), pd, RoundUp(newsz), hi);
      return newsz;
    }

    /** One turn of the loop: a page, or all pages of a table that is not there. */
    method Turn(pd: nat, a: nat, ghost hi: nat) returns (next: nat)
      requires Ok(S(), pd) && a < hi <= USERPAGES
      modifies this
      ensures Ok(S(), pd) && a < next && PageByPage(S(), pd, next, hi) == PageByPage(old(S()), pd, a, hi)
    {
      ghost var s := S();
      DirReady(s, pd);
      var e := mem[pd][a / NENTRIES];
      if !Present(e) {
        SkipTable(s, pd, a, hi);
        return (a / NENTRIES + 1) * NENTRIES;
      }
      var tab := Frame(e);
      TableReady(s, pd, a);
      var pte := mem[tab][a % NENTRIES];
      next := a + 1;
      if Present(pte) {
        LookupHas(s, pd, a);
        UnmappedOk(s, pd, a);
        hide KmemOk, SpaceOk;
        Kfree(Frame(pte));
        var page: Page := mem[tab][a % NENTRIES := 0];
        mem := mem[tab := page];
        assert S() == Unmapped(s, pd, a);
      } else {
        UnmappedSame(s, pd, a);
      }
    }

    /** Giving up: the pages mapped so far are unmapped again. */
    method Undo(pd: nat, oldsz: nat, newsz: nat, ghost s0: State, ghost a: nat, ghost b: nat)
      requires Ok(S(), pd) && oldsz < newsz < KERNBASE && Ok(s0, pd) && MappedTo(s0, pd, RoundUp(oldsz))
      requires RoundUp(oldsz) <= a <= RoundUp(newsz) && Grown(s0, S(), pd, RoundUp(oldsz), a, b)
      modifies this
      ensures Ok(S(), pd) && Restored(s0, S(), pd, b)
      ensures OwnAfter(old(S()), S(), RoundUp(oldsz), RoundUp(newsz))
    {
      ghost var m := S();
      PageByPageOk(m, pd, RoundUp(oldsz), RoundUp(newsz));
      UsersBelow(s0, pd, RoundUp(oldsz));
      hide SpaceOk, KmemOk, Grown, Lookup, PageByPage, OwnAfter, MapAfter, PagesStay;
      var sz := Deallocuvm(pd, newsz, oldsz);
      RestoredBy(s0, m, S(), pd, RoundUp(oldsz), a, RoundUp(newsz), b);
    }

    /** One turn of allocuvm's loop: another page, or everything undone. */
    method Another(pd: nat, oldsz: nat, newsz: nat, a: nat, ghost s: State) returns (ok: bool)
      requires Ok(S(), pd) && oldsz < newsz < KERNBASE && Ok(s, pd) && MappedTo(s, pd, RoundUp(oldsz))
      requires RoundUp(oldsz) <= a < RoundUp(newsz) && Grown(s, S(), pd, RoundUp(oldsz), a, 0)
      requires Spent(s, S(), pd, RoundUp(oldsz), a)
      modifies this
      ensures Ok(S(), pd)
      ensures if ok then Grown(s, S(), pd, RoundUp(oldsz), a + 1, 0) else Restored(s, S(), pd, 0)
      ensures ok ==> Spent(s, S(), pd, RoundUp(oldsz), a + 1)
      ensures !ok ==> |s.free| < Frames(s, pd, RoundUp(oldsz), RoundUp(newsz))
    {
      hide SpaceOk, KmemOk, Grown, Lookup, Restored, MappedTo, ZeroPage, Spent, Frames, TableAdded, Entry, HasTable;
      ghost var m, lo := S(), RoundUp(oldsz);
      NotYet(s, m, pd, lo, a);
      var f := ZeroedPage(pd);
      if f == 0 {
        SpentStop(s, m, pd, lo, a, RoundUp(newsz));
        Undo(pd, oldsz, newsz, s, a, 0);
        return false;
      }
      ghost var h := S();
      HeldFrom(s, m, h, pd, lo, a, f);
      AddedAfter(m, h, h, pd, a);
      var res := Mappage(pd, a, f, s, lo);
      if res == NoMemory {
        SpentStop(s, m, pd, lo, a, RoundUp(newsz));
        Undo(pd, oldsz, newsz, s, a, f);
        RestoredGiven(s, S(), pd, f);
        Kfree(f);
        return false;
      }
      AddedAfter(m, h, S(), pd, a);
      SpentStep(s, m, S(), pd, lo, a);
      return true;
    }

    method Allocuvm(pd: nat, oldsz: nat, newsz: nat) returns (r: nat)
      requires Ok(S(), pd) && oldsz <= KERNBASE && MappedTo(S(), pd, RoundUp(oldsz))
      modifies this
      ensures Ok(S(), pd)
      ensures newsz >= KERNBASE ==> r == 0 && S() == old(S())
      ensures newsz < KERNBASE && newsz < oldsz ==> r == oldsz && S() == old(S())
      ensures oldsz <= newsz < KERNBASE ==>
                if |old(free)| >= Frames(old(S()), pd, RoundUp(oldsz), RoundUp(newsz))
                then r == newsz && Grown(old(S()), S(), pd, RoundUp(oldsz), RoundUp(newsz), 0)
                else r == 0 && Restored(old(S()), S(), pd, 0)
      ensures oldsz <= newsz == r ==>
        NewBytes(old(S()), S(), pd, (oldsz + 0xFFF) / 0x1000, (newsz + 0xFFF) / 0x1000)
      ensures r != newsz ==> forall va: nat :: va < 0x1_0000_0000 ==> OldByte(old(S()), S(), pd, va)
    {
      hide Ok, Grown, Restored, MappedTo, Spent, Frames, NewBytes, OldByte;
      NothingNew(S(), pd);
      if newsz >= KERNBASE { return 0; }
      if newsz < oldsz { return oldsz; }
      ghost var s, lo := S(), RoundUp(oldsz);
      GrowthStarts(s, pd, lo);
      var a := RoundUp(oldsz);
      while PGSIZE * a < newsz
        invariant lo <= a <= RoundUp(newsz) && Ok(S(), pd) && Grown(s, S(), pd, lo, a, 0) && Spent(s, S(), pd, lo, a)
        decreases RoundUp(newsz) - a
      {
        var ok := Another(pd, oldsz, newsz, a, s);
        if !ok {
          RestoredBytes(s, S(), pd, 0);
          return 0;
        }
        a := a + 1;
      }
      SpentAll(s, S(), pd, lo, a);
      GrownBytes(s, S(), pd, lo, a);
      return newsz;
    }

    /** freevm's loop over the directory: every table page is freed. */
    method FreeTables(pd: nat)
      requires Ok(S(), pd)
      modifies this
      ensures KmemOk(S()) && pd in own && own[pd] == Dir && TablesFreed(old(S()), S(), NENTRIES)
    {
      ghost var s := S();
      DirReady(s, pd);
      StaysItself(s);
      var i := 0;
      while i < NENTRIES
        invariant 0 <= i <= NENTRIES && KmemOk(S()) && TablesFreed(s, S(), i) && pd in own && own[pd] == Dir
        invariant pd in mem && |mem[pd]| == NENTRIES && mem[pd] == s.mem[pd]
      {
        ghost var m := S();
        TableAt(s, m, pd, i);
        hide KmemOk, SpaceOk, TablesFreed;
        if Present(mem[pd][i]) {
          var f := Frame(mem[pd][i]);
          Kfree(f);
        }
        assert KmemOk(S());
        i := i + 1;
      }
    }

    method Freevm(pd: nat)
      requires Ok(S(), pd)
      modifies this
      ensures KmemOk(S()) && Released(old(S()), S())
    {
      hide Ok, SpaceOk, PageByPage, MapAfter, KmemOk, OwnAfter, PagesStay, TablesFreed, Bounded, Released, Lookup;
      ghost var s := S();
      PageByPageOk(s, pd, 0, USERPAGES);
      UsesBounded(s, pd);
      var sz := Deallocuvm(pd, KERNBASE, 0);
      ghost var m := S();
      FreeTables(pd);
      ghost var t := S();
      AllFreed(s, m, t, pd);
      Kfree(pd);
    }
  }

  /** Every page of the address space is free, every other page as it was. */
  ghost predicate Released(s: State, t: State) {
    && t.own.Keys == s.own.Keys && PagesStay(s, t)
    && forall f :: f in s.own ==> t.own[f] == if s.own[f] == Busy then Busy else Free
  }

  /** The tables of the first `n` directory entries have been freed. */
  ghost predicate TablesFreed(s: State, t: State, n: nat) {
    && t.own.Keys == s.own.Keys && PagesStay(s, t)
    && forall f :: f in s.own ==> t.own[f] == if s.own[f].Table? && s.own[f].i < n then Free else s.own[f]
  }

  /** Entry `i` of the directory, and what freeing its table does. */
  lemma TableAt(s: State, m: State, pd: nat, i: nat)
    requires Ok(s, pd) && TablesFreed(s, m, i) && i < NENTRIES && KmemOk(m)
    requires pd in m.mem && |m.mem[pd]| == NENTRIES && pd in s.mem && m.mem[pd] == s.mem[pd]
    ensures var f := Frame(m.mem[pd][i]);
            if Present(m.mem[pd][i])
            then f in m.own && m.own[f] == Table(i) && f != pd && TablesFreed(s, Given(m, f), i + 1)
            else TablesFreed(s, m, i + 1)
  {
    assert DirOk(s, pd, i);
    forall g | g in s.own && s.own[g] == Table(i) ensures Present(m.mem[pd][i]) && g == Frame(m.mem[pd][i]) {
      assert OwnOk(s, pd, g);
    }
    hide SpaceOk;
    if Present(m.mem[pd][i]) {
      var t := Given(m, Frame(m.mem[pd][i]));
      forall g | g in s.own && t.own[g] == s.own[g] && (s.own[g].User? || s.own[g].Busy?) ensures SamePage(s, t, g) {
        assert SamePage(s, m, g);
      }
    }
  }

  ghost predicate Bounded(s: State, pd: nat) {
    && pd in s.own && s.own[pd] == Dir
    && forall f :: f in s.own ==> (s.own[f].User? ==> s.own[f].v < USERPAGES)
                                  && (s.own[f].Table? ==> s.own[f].i < NENTRIES) && (s.own[f] == Dir ==> f == pd)
  }

  lemma UsesBounded(s: State, pd: nat)
    requires Ok(s, pd)
    ensures Bounded(s, pd)
  {
    forall f | f in s.own ensures OwnOk(s, pd, f) { }
  }

  lemma AllFreed(s: State, m: State, t: State, pd: nat)
    requires OwnAfter(s, m, 0, USERPAGES) && PagesStay(s, m) && TablesFreed(m, t, NENTRIES) && Bounded(s, pd)
    ensures Released(s, Given(t, pd))
  {
    var u := Given(t, pd);
    forall g | g in s.own && u.own[g] == s.own[g] && (s.own[g].User? || s.own[g].Busy?) ensures SamePage(s, u, g) {
      assert SamePage(s, m, g) && SamePage(m, t, g);
    }
  }

  /** User pages are mapped exactly below `k`. */
  ghost predicate MappedTo(s: State, pd: nat, k: nat) {
    forall u :: 0 <= u < USERPAGES ==> (Present(Lookup(s, pd, u)) <==> u < k)
  }

  lemma UsersBelow(s: State, pd: nat, k: nat)
    requires Ok(s, pd) && MappedTo(s, pd, k)
    ensures forall f :: f in s.own && s.own[f].User? ==> s.own[f].v < k
  {
    forall f | f in s.own && s.own[f].User? ensures s.own[f].v < k { assert OwnOk(s, pd, f); }
  }

  lemma NotYet(s: State, m: State, pd: nat, lo: nat, a: nat)
    requires Grown(s, m, pd, lo, a, 0) && lo <= a < USERPAGES && MappedTo(s, pd, lo)
    ensures !Present(Lookup(m, pd, a))
  {
  }

  lemma HeldFrom(s: State, m: State, h: State, pd: nat, lo: nat, a: nat, f: nat)
    requires Ok(m, pd) && Grown(s, m, pd, lo, a, 0) && Grown(m, h, pd, 0, 0, f) && lo <= a < USERPAGES
    requires f in m.own && m.own[f] == Free && !Present(Lookup(m, pd, a))
    ensures Grown(s, h, pd, lo, a, f) && f in s.own && s.own[f] == Free && !Present(Lookup(h, pd, a))
  {
    GrownTwice(s, m, h, pd, lo, a, 0, f);
    assert GrewTo(s.own[f], m.own[f], lo, a, f == 0);
  }

  /** After a successful growth the space is mapped exactly up to its new end, after a failed one
      exactly up to its old end. */
  lemma GrowthMapped(s: State, t: State, pd: nat, lo: nat, hi: nat)
    requires MappedTo(s, pd, lo) && lo <= hi <= USERPAGES
    ensures Grown(s, t, pd, lo, hi, 0) ==> MappedTo(t, pd, hi)
    ensures Restored(s, t, pd, 0) ==> MappedTo(t, pd, lo)
  {
    hide Lookup;
    if Grown(s, t, pd, lo, hi, 0) {
      forall u | 0 <= u < USERPAGES ensures Present(Lookup(t, pd, u)) <==> u < hi {
        assert if lo <= u < hi then FreshPage(s, t, pd, u) else Lookup(t, pd, u) == Lookup(s, pd, u);
      }
    }
  }

  lemma LookupKept(s: State, m: State, pd: nat, v: nat)
    requires Grown(s, m, pd, 0, 0, 0) && v < NENTRIES * NENTRIES
    ensures Lookup(m, pd, v) == Lookup(s, pd, v)
    ensures !HasTable(m, pd, v) ==> !Present(Lookup(m, pd, v))
    ensures HasTable(m, pd, v) ==> Lookup(m, pd, v) == Entry(m, TableOf(m, pd, v), v % NENTRIES)
  {
  }

  lemma HeldStays(s: State, m: State, pd: nat, f: nat)
    requires Grown(s, m, pd, 0, 0, 0) && f in s.own && s.own[f] == Busy && ZeroPage(s, f)
    ensures f in m.own && m.own[f] == Busy && ZeroPage(m, f)
  {
    assert GrewTo(s.own[f], m.own[f], 0, 0, f == 0) && SamePage(s, m, f);
    forall k | 0 <= k < NENTRIES ensures Entry(m, f, k) == 0 { assert Entry(s, f, k) == 0; }
  }

  lemma NoPagesLeft(s: State, pd: nat, a: nat, hi: nat)
    requires a >= hi
    ensures PageByPage(s, pd, a, hi) == s
  {
  }

  lemma DirEntry(s: State, pd: nat, i: nat)
    requires Ok(s, pd) && i < NENTRIES
    ensures DirOk(s, pd, i)
  {
  }

  lemma DirIsDir(s: State, pd: nat)
    requires Ok(s, pd)
    ensures pd in s.own && s.own[pd] == Dir
  {
  }

  lemma DirReady(s: State, pd: nat)
    requires Ok(s, pd)
    ensures FrameOk(s, pd)
  {
  }
}
