/** Operations between two commits, as the sequence of their accesses to blocks. */
module Journal {
  import opened Blocks
  import opened Collections
  import opened LogSpec

  /** What a file-system operation does with one block: bread it, or bread, change, log and
      brelse it. */
  datatype Access = Look(b: uint32) | Put(b: uint32, data: Block)

  predicate AccessOk(lay: Layout, n: nat, x: Access) { x.b < n && (x.Put? ==> !InLog(lay, x.b)) }

  /** The block map after `ops`. */
  function After(l: Disk, ops: seq<Access>): (r: Disk)
    ensures |r| == |l|
  {
    if ops == [] then l
    else
      var x, m := ops[|ops| - 1], After(l, ops[..|ops| - 1]);
      if x.Put? && x.b < |m| then m[x.b := x.data] else m
  }

  /** What the Looks among `ops` are to see: the last value put, or else the old one. */
  function Views(l: Disk, ops: seq<Access>): seq<Block> {
    if ops == [] then []
    else
      var x, n := ops[|ops| - 1], |ops| - 1;
      var m := After(l, ops[..n]);
      Views(l, ops[..n]) + if x.Look? && x.b < |m| then [m[x.b]] else []
  }

  /** The transaction's list after `ops`: each block put is listed once. */
  function Listed(lh: seq<uint32>, ops: seq<Access>): seq<uint32> {
    if ops == [] then lh
    else
      var x, l := ops[|ops| - 1], Listed(lh, ops[..|ops| - 1]);
      if x.Put? && x.b !in l then l + [x.b] else l
  }

  /** No put of `ops` finds `limit` blocks listed already. */
  predicate HasRoom(limit: int, lh: seq<uint32>, ops: seq<Access>) {
    forall i :: 0 <= i < |ops| && ops[i].Put? ==> |Listed(lh, ops[..i])| < limit
  }

  lemma RoomStep(limit: int, lh: seq<uint32>, ops: seq<Access>, i: nat)
    requires i < |ops| && HasRoom(limit, lh, ops[..i])
    ensures HasRoom(limit, lh, ops[..i + 1]) <==> ops[i].Look? || |Listed(lh, ops[..i])| < limit
    ensures HasRoom(limit, lh, ops) ==> HasRoom(limit, lh, ops[..i + 1])
  {
    hide Listed;
    forall j | 0 <= j <= i ensures ops[..i + 1][..j] == ops[..j] {}
    forall j | 0 <= j < i ensures ops[..i][..j] == ops[..j] {}
  }

  /** What one access more adds to all of this. */
  lemma NextAccess(l: Disk, lh: seq<uint32>, ops: seq<Access>, i: nat)
    requires i < |ops|
    ensures
      var x, m, k := ops[i], After(l, ops[..i]), Listed(lh, ops[..i]);
      && After(l, ops[..i + 1]) == (if x.Put? && x.b < |m| then m[x.b := x.data] else m)
      && Views(l, ops[..i + 1]) == Views(l, ops[..i]) + (if x.Look? && x.b < |m| then [m[x.b]] else [])
      && Listed(lh, ops[..i + 1]) == (if x.Put? && x.b !in k then k + [x.b] else k)
  {
    assert ops[..i + 1][..i] == ops[..i];
  }

  lemma NoAccess(l: Disk, lh: seq<uint32>, ops: seq<Access>, limit: int)
    ensures After(l, ops[..0]) == l && Views(l, ops[..0]) == [] && Listed(lh, ops[..0]) == lh
    ensures HasRoom(limit, lh, ops[..0])
  {
  }

  // ---- One access more

  lemma Append(l: Disk, lh: seq<uint32>, ops: seq<Access>, x: Access)
    ensures
      var m, k := After(l, ops), Listed(lh, ops);
      && After(l, ops + [x]) == (if x.Put? && x.b < |m| then m[x.b := x.data] else m)
      && Views(l, ops + [x]) == Views(l, ops) + (if x.Look? && x.b < |m| then [m[x.b]] else [])
      && Listed(lh, ops + [x]) == (if x.Put? && x.b !in k then k + [x.b] else k)
  {
    var all := ops + [x];
    assert all[..|ops|] == ops && all[..|ops| + 1] == all;
    NextAccess(l, lh, all, |ops|);
  }

  // ---- Whole sequences

  /** The blocks that `ops` put are all in `lg`. */
  predicate PutsIn(ops: seq<Access>, lg: set<nat>) {
    forall i :: 0 <= i < |ops| && ops[i].Put? ==> ops[i].b as nat in lg
  }

  lemma {:induction false} ListedIn(ops: seq<Access>, lg: set<nat>)
    requires PutsIn(ops, lg)
    ensures Distinct(Listed([], ops)) && forall b :: b in Listed([], ops) ==> b as nat in lg
  {
    if ops != [] { ListedIn(ops[..|ops| - 1], lg); }
  }

  lemma {:induction false} DistinctCount(l: seq<uint32>, lg: set<nat>)
    requires Distinct(l) && forall b :: b in l ==> b as nat in lg
    ensures |l| <= |lg|
  {
    if l != [] {
      var b, k := l[|l| - 1], l[..|l| - 1];
      assert b in l;
      forall c | c in k ensures c as nat in lg - {b as nat} {
        var i :| 0 <= i < |k| && k[i] == c;
        assert l[i] == c && l[i] != l[|l| - 1] && c in l;
      }
      DistinctCount(k, lg - {b as nat});
    }
  }

  /** All accesses but the last one. */
  function Front(ops: seq<Access>): seq<Access> { if ops == [] then [] else ops[..|ops| - 1] }

  /** If fewer blocks than `limit` are put before the last access, no put meets the guard. */
  lemma FewHaveRoom(limit: int, ops: seq<Access>, lg: set<nat>)
    requires PutsIn(Front(ops), lg) && |lg| < limit
    ensures HasRoom(limit, [], ops)
  {
    hide Listed;
    forall i | 0 <= i < |ops| ensures |Listed([], ops[..i])| < limit {
      ListedIn(ops[..i], lg);
      DistinctCount(Listed([], ops[..i]), lg);
    }
  }

  lemma MoreRoom(limit: int, more: int, lh: seq<uint32>, ops: seq<Access>)
    requires limit <= more && HasRoom(limit, lh, ops)
    ensures HasRoom(more, lh, ops)
  {
    hide Listed;
  }

  /** `b` continues `a` with nothing, or with an access to `x` that changes it. */
  predicate Closes(a: seq<Access>, b: seq<Access>, x: nat) {
    b == a || (|b| == |a| + 2 && Front(b) == a + [b[|a|]] && b[|a|].Look? && b[|a|].b as nat == x)
  }

  lemma ClosesPuts(a: seq<Access>, b: seq<Access>, x: nat, lg: set<nat>)
    requires Closes(a, b, x) && PutsIn(a, lg)
    ensures PutsIn(Front(b), lg)
  {
  }

  /** All accesses are outside the log. */
  predicate AllHome(lay: Layout, ops: seq<Access>) {
    forall i :: 0 <= i < |ops| ==> !InLog(lay, ops[i].b)
  }

  /** Block maps that agree outside the log stay so, and show the same blocks. */
  lemma {:induction false} SameHomeAfter(lay: Layout, l: Disk, m: Disk, ops: seq<Access>)
    requires SameHome(lay, l, m) && AllHome(lay, ops)
    ensures SameHome(lay, After(l, ops), After(m, ops)) && Views(l, ops) == Views(m, ops)
  {
    if ops != [] {
      SameHomeAfter(lay, l, m, ops[..|ops| - 1]);
      assert !InLog(lay, ops[|ops| - 1].b);
    }
  }

  /** Below all that is put, nothing changes. */
  lemma {:induction false} AfterBelow(l: Disk, ops: seq<Access>, lo: nat, b: nat)
    requires (forall i :: 0 <= i < |ops| && ops[i].Put? ==> lo <= ops[i].b) && b < lo && b < |l|
    ensures After(l, ops)[b] == l[b]
  {
    if ops != [] {
      AfterBelow(l, ops[..|ops| - 1], lo, b);
      assert ops[|ops| - 1].Put? ==> lo <= ops[|ops| - 1].b;
    }
  }
}
