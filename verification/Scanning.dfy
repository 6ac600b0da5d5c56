// internal/scan/scan.go: inventories, and the order in which reconciliation visits their union.

module Scanning {
  import opened Disks
  import opened Exclude
  import opened Frames
  import opened Nodes
  import opened Passes
  import opened Paths
  import opened Settings
  import opened Sync

  /** The walk of a whole tree meets every path, in some order. */
  ghost predicate Covers(visits: seq<Path>, d: Disk) {
    forall x :: x in visits <==> x in d
  }

  lemma PrefixStep<T>(s: seq<T>, i: nat)
    requires i < |s|
    ensures forall x :: x in s[..i + 1] <==> x in s[..i] || x == s[i]
  {
    assert s[..i + 1] == s[..i] + [s[i]];
  }

  /** One pass over the tree; an excluded path, and with it all below it, stays out. */
  method Walk(cfg: Config, d: Disk, visits: seq<Path>) returns (inv: Inventory)
    requires Covers(visits, d)
    ensures inv == Scan(cfg, d)
  {
    hide Excluded;
    inv := map[];
    for i := 0 to |visits|
      invariant inv == map p | p in d && p in visits[..i] && !Excluded(cfg.exclude, p) :: StatOf(d[p])
    {
      PrefixStep(visits, i);
      assert visits[i] in d;
      if !Excluded(cfg.exclude, visits[i]) {
        inv := inv[visits[i] := StatOf(d[visits[i]])];
      }
    }
    assert visits[..|visits|] == visits;
  }

  // ---------------------------------------------------------------- the visiting order

  predicate Less(p: string, q: string) {
    q != "" && (p == "" || p[0] < q[0] || (p[0] == q[0] && Less(p[1..], q[1..])))
  }

  /** Shallower first, and among equals by name. */
  predicate Before(p: Path, q: Path) {
    Depth(p) < Depth(q) || (Depth(p) == Depth(q) && Less(p, q))
  }

  lemma {:induction false} LessIsTotal(p: string, q: string)
    ensures Less(p, q) || p == q || Less(q, p)
    ensures !Less(p, p) && !(Less(p, q) && Less(q, p))
  {
    if p != "" {
      LessIsTotal(p[1..], p[1..]);
      if q != "" && p[0] == q[0] {
        LessIsTotal(p[1..], q[1..]);
        assert p == [p[0]] + p[1..] && q == [q[0]] + q[1..];
      }
    }
  }

  lemma {:induction false} LessIsTransitive(p: string, q: string, r: string)
    requires Less(p, q) && Less(q, r)
    ensures Less(p, r)
  {
    if p != "" && p[0] == q[0] && q[0] == r[0] {
      LessIsTransitive(p[1..], q[1..], r[1..]);
    }
  }

  lemma BeforeIsStrictOrder(p: Path, q: Path, r: Path)
    ensures Before(p, q) || p == q || Before(q, p)
    ensures !Before(p, p) && !(Before(p, q) && Before(q, p))
    ensures Before(p, q) && Before(q, r) ==> Before(p, r)
  {
    LessIsTotal(p, q);
    if Less(p, q) && Less(q, r) { LessIsTransitive(p, q, r); }
  }

  predicate Sorted(s: seq<Path>) {
    forall i, j :: 0 <= i < j < |s| ==> Before(s[i], s[j])
  }

  /** Where p belongs in a sorted list it is not in. */
  method Insert(s: seq<Path>, p: Path) returns (r: seq<Path>)
    requires Sorted(s) && p !in s
    ensures Sorted(r) && forall x :: x in r <==> x in s || x == p
  {
    hide Before;
    var i := |s|;
    while i > 0 && Before(p, s[i - 1])
      invariant 0 <= i <= |s|
      invariant forall j :: i <= j < |s| ==> Before(p, s[j])
    {
      i := i - 1;
    }
    forall j | 0 <= j < i ensures Before(s[j], p) {
      BeforeIsStrictOrder(p, s[i - 1], s[j]);
      BeforeIsStrictOrder(s[j], s[i - 1], p);
    }
    r := s[..i] + [p] + s[i..];
    assert s == s[..i] + s[i..];
  }

  /** Every path of either inventory, shallow ones first. */
  method Union(a: Inventory, b: Inventory) returns (paths: seq<Path>)
    ensures Sorted(paths) && forall p :: p in paths <==> p in a || p in b
  {
    hide Before;
    var seen := a.Keys + b.Keys;
    paths := [];
    while seen != {}
      invariant seen <= a.Keys + b.Keys
      invariant Sorted(paths) && forall p :: p in paths <==> p in a.Keys + b.Keys - seen
      decreases |seen|
    {
      var p :| p in seen;
      paths := Insert(paths, p);
      seen := seen - {p};
    }
  }

  /** Sorted by depth means directories come before their contents, each path once. */
  lemma SortedIsTopDown(s: seq<Path>)
    requires Sorted(s)
    ensures NoDuplicates(s) && TopDown(s)
  {
    forall i, j | 0 <= i < j < |s| ensures s[i] != s[j] && !Under(s[i], s[j]) {
      BeforeIsStrictOrder(s[i], s[j], s[j]);
      if Under(s[i], s[j]) { UnderIsDeeper(s[i], s[j]); }
    }
  }

  /** The two inventories alone determine the order of the pass. */
  lemma {:induction false} OrderIsDetermined(s: seq<Path>, t: seq<Path>)
    requires Sorted(s) && Sorted(t) && forall x :: x in s <==> x in t
    ensures s == t
  {
    hide Before;
    if s == [] || t == [] {
      EmptyTogether(s, t);
    } else {
      assert s[0] in t && t[0] in s;
      FirstIsLeast(s, t[0]);
      FirstIsLeast(t, s[0]);
      BeforeIsStrictOrder(s[0], t[0], s[0]);
      BeforeIsStrictOrder(t[0], s[0], t[0]);
      assert s == [s[0]] + s[1..] && t == [t[0]] + t[1..];
      forall x ensures x in s[1..] <==> x in t[1..] {
        BeforeIsStrictOrder(s[0], s[0], s[0]);
        assert x in s <==> x == s[0] || x in s[1..];
        assert x in t <==> x == t[0] || x in t[1..];
      }
      OrderIsDetermined(s[1..], t[1..]);
    }
  }

  lemma FirstIsLeast(s: seq<Path>, x: Path)
    requires Sorted(s) && x in s
    ensures s[0] == x || Before(s[0], x)
  {
    hide Before;
  }

  lemma EmptyTogether(s: seq<Path>, t: seq<Path>)
    requires (s == [] || t == []) && forall x :: x in s <==> x in t
    ensures s == t
  {
    FirstIsIn(s);
    FirstIsIn(t);
  }

  /** What Union returns for the two scans is an order reconciliation can follow. */
  lemma UnionFitsPass(cfg: Config, s: State, paths: seq<Path>)
    requires Sorted(paths)
    requires forall p :: p in paths <==> p in Scan(cfg, s.a.disk) || p in Scan(cfg, s.b.disk)
    ensures UnionOrder(cfg, s, paths)
  {
    hide Excluded, Before;
    SortedIsTopDown(paths);
  }
}
