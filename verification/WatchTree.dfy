// internal/watcher/tree.go: the two-way index between watch descriptors and directories.

module WatchIndex {
  import opened Paths
  import Names

  type Wd = w: int | -0x8000_0000 <= w < 0x8000_0000

  /** A cleaned relative path: "." for the root, never empty, never ending in a component ".". */
  type Dir = p: Path | p != "" && !EndsInDot(p) witness "."

  predicate EndsInDot(p: Path) {
    |p| >= 2 && p[|p| - 2] == '/' && p[|p| - 1] == '.'
  }

  datatype Index = Index(byWd: map<Wd, Dir>, byPath: map<Dir, Wd>)

  /** Strictly below, and by more than a bare separator; the root "." is above everything else. */
  predicate IsUnder(child: Path, parent: Path) {
    if parent == "." then child != "."
    else |child| > |parent| + 1 && child[..|parent|] == parent && child[|parent|] == '/'
  }

  predicate Within(p: Dir, dir: Dir) {
    p == dir || IsUnder(p, dir)
  }

  /** The two maps are inverse to each other. */
  ghost predicate Inverse(i: Index) {
    && (forall wd :: wd in i.byWd ==> i.byWd[wd] in i.byPath && i.byPath[i.byWd[wd]] == wd)
    && (forall p :: p in i.byPath ==> i.byPath[p] in i.byWd && i.byWd[i.byPath[p]] == p)
  }

  function Add(i: Index, wd: Wd, rel: Dir): Index {
    var cleared := if wd in i.byWd && i.byWd[wd] != rel then i.byPath - {i.byWd[wd]} else i.byPath;
    Index(i.byWd[wd := rel], cleared[rel := wd])
  }

  function Remove(i: Index, wd: Wd): Index {
    Index(i.byWd - {wd}, if wd in i.byWd then i.byPath - {i.byWd[wd]} else i.byPath)
  }

  /** The descriptors of everything at or below a directory. */
  function WdsWithin(i: Index, rel: Dir): set<Wd> {
    set p | p in i.byPath && Within(p, rel) :: i.byPath[p]
  }

  function RemoveSubtree(i: Index, rel: Dir): Index {
    Index(i.byWd - WdsWithin(i, rel), map p | p in i.byPath && !Within(p, rel) :: i.byPath[p])
  }

  /** The paths that stay once all but the rest have been looked at. */
  ghost function Left(all: map<Dir, Wd>, rest: set<Dir>, rel: Dir): map<Dir, Wd> {
    map p | p in all && (p in rest || !Within(p, rel)) :: all[p]
  }

  /** The descriptors met by then. */
  ghost function Met(all: map<Dir, Wd>, rest: set<Dir>, rel: Dir): set<Wd> {
    set p | p in all && p !in rest && Within(p, rel) :: all[p]
  }

  lemma NextLeft(all: map<Dir, Wd>, rest: set<Dir>, p: Dir, rel: Dir)
    requires p in rest && p in all
    ensures p in Left(all, rest, rel) && Left(all, rest, rel)[p] == all[p]
    ensures Left(all, rest - {p}, rel) == if Within(p, rel) then Left(all, rest, rel) - {p} else Left(all, rest, rel)
  {
    hide Within;
  }

  lemma NextMet(all: map<Dir, Wd>, rest: set<Dir>, p: Dir, rel: Dir)
    requires p in rest && p in all
    ensures Met(all, rest - {p}, rel) == if Within(p, rel) then Met(all, rest, rel) + {all[p]} else Met(all, rest, rel)
  {
    hide Within;
    var before, after := Met(all, rest, rel), Met(all, rest - {p}, rel);
    forall wd | wd in after ensures wd in before || (Within(p, rel) && wd == all[p]) {
      var q :| q in all && q !in rest - {p} && Within(q, rel) && all[q] == wd;
    }
    forall wd | wd in before ensures wd in after {
      var q :| q in all && q !in rest && Within(q, rel) && all[q] == wd;
      assert q !in rest - {p};
    }
  }

  /** A sweep below rel that has still to look at the rest. */
  ghost predicate Swept(was: Index, rest: set<Dir>, rel: Dir, now: Index, wds: seq<Wd>) {
    && rest <= was.byPath.Keys
    && now == Index(was.byWd - Met(was.byPath, rest, rel), Left(was.byPath, rest, rel))
    && forall wd :: wd in wds <==> wd in Met(was.byPath, rest, rel)
  }

  lemma SweepStarts(was: Index, rel: Dir)
    ensures Swept(was, was.byPath.Keys, rel, was, [])
  {
    hide Within;
    assert Met(was.byPath, was.byPath.Keys, rel) == {};
    assert Left(was.byPath, was.byPath.Keys, rel) == was.byPath;
  }

  lemma SweepStep(was: Index, rest: set<Dir>, rel: Dir, now: Index, wds: seq<Wd>, p: Dir)
    requires Swept(was, rest, rel, now, wds) && p in rest
    ensures p in now.byPath
    ensures if Within(p, rel)
      then Swept(was, rest - {p}, rel, Index(now.byWd - {now.byPath[p]}, now.byPath - {p}), wds + [now.byPath[p]])
      else Swept(was, rest - {p}, rel, now, wds)
  {
    hide Within, Left, Met;
    NextLeft(was.byPath, rest, p, rel);
    NextMet(was.byPath, rest, p, rel);
    LessAndLess(was.byWd, Met(was.byPath, rest, rel), now.byPath[p]);
  }

  lemma LessAndLess(m: map<Wd, Dir>, gone: set<Wd>, wd: Wd)
    ensures m - gone - {wd} == m - (gone + {wd})
  {
  }

  lemma SweepEnds(was: Index, rel: Dir, now: Index, wds: seq<Wd>)
    requires Swept(was, {}, rel, now, wds)
    ensures now == RemoveSubtree(was, rel) && forall wd :: wd in wds <==> wd in WdsWithin(was, rel)
  {
    hide Within;
    assert Met(was.byPath, {}, rel) == WdsWithin(was, rel);
    assert Left(was.byPath, {}, rel) == map p | p in was.byPath && !Within(p, rel) :: was.byPath[p];
  }

  /** Where a path goes when its directory `from` becomes `to`. */
  function Target(p: Dir, from: Dir, to: Dir): Dir
    requires Within(p, from)
  {
    if p == from then to
    else
      var suffix := if from == "." then p else p[|from| + 1..];
      JoinIsDir(p, from, to, suffix);
      Names.Join(to, suffix)
  }

  lemma JoinIsDir(p: Dir, from: Dir, to: Dir, suffix: string)
    requires IsUnder(p, from) && suffix == (if from == "." then p else p[|from| + 1..])
    ensures suffix != "" && suffix != "." && Names.Join(to, suffix) != "" && !EndsInDot(Names.Join(to, suffix))
  {
    if from != "." {
      assert p[|p| - 1] == suffix[|suffix| - 1];
      if |suffix| >= 2 { assert p[|p| - 2] == suffix[|suffix| - 2]; }
    }
    if to != "." {
      var q := to + "/" + suffix;
      assert q[|q| - 1] == suffix[|suffix| - 1];
      if |suffix| >= 2 { assert q[|q| - 2] == suffix[|suffix| - 2]; }
    }
  }

  function Moved(byPath: map<Dir, Wd>, from: Dir, to: Dir): map<Dir, Wd> {
    map q | q in (set p | p in byPath && Within(p, from) :: Target(p, from, to))
            && Within(q, to) && Within(Target(q, to, from), from) && Target(q, to, from) in byPath :: byPath[Target(q, to, from)]
  }

  /** renameSubtree on a consistent index. */
  function Rename(i: Index, from: Dir, to: Dir): Index {
    Index(map wd | wd in i.byWd :: if Within(i.byWd[wd], from) then Target(i.byWd[wd], from, to) else i.byWd[wd],
          (map p | p in i.byPath && !Within(p, from) :: i.byPath[p]) + Moved(i.byPath, from, to))
  }

  lemma TargetBack(p: Dir, from: Dir, to: Dir)
    requires Within(p, from)
    ensures Within(Target(p, from, to), to)
    ensures Target(Target(p, from, to), to, from) == p
  {
    var q := Target(p, from, to);
    if p != from {
      var suffix := if from == "." then p else p[|from| + 1..];
      JoinIsDir(p, from, to, suffix);
      assert p == Names.Join(from, suffix) by {
        if from != "." { assert p == p[..|from|] + [p[|from|]] + p[|from| + 1..]; }
      }
      if to != "." {
        assert q == to + "/" + suffix && q[|to| + 1..] == suffix && q[..|to|] == to;
      }
    }
  }

  lemma MovedIs(byPath: map<Dir, Wd>, from: Dir, to: Dir)
    ensures forall p :: p in byPath && Within(p, from) ==>
      Target(p, from, to) in Moved(byPath, from, to) && Moved(byPath, from, to)[Target(p, from, to)] == byPath[p]
    ensures forall q :: q in Moved(byPath, from, to) ==>
      Within(q, to) && Within(Target(q, to, from), from) && Target(q, to, from) in byPath
      && Target(Target(q, to, from), from, to) == q && Moved(byPath, from, to)[q] == byPath[Target(q, to, from)]
  {
    hide Within, Target;
    forall p | p in byPath && Within(p, from)
      ensures Target(p, from, to) in Moved(byPath, from, to)
      ensures Moved(byPath, from, to)[Target(p, from, to)] == byPath[p]
    {
      TargetBack(p, from, to);
    }
    forall q | q in Moved(byPath, from, to) ensures Target(Target(q, to, from), from, to) == q {
      TargetBack(q, to, from);
    }
  }

  // ------------------------------------------------------------ the index stays two-way

  /** Adding keeps the index consistent exactly when the path is new or already that of the descriptor. */
  lemma AddKeepsExactly(i: Index, wd: Wd, rel: Dir)
    requires Inverse(i)
    ensures Inverse(Add(i, wd, rel)) <==> rel !in i.byPath || i.byPath[rel] == wd
  {
    var after := Add(i, wd, rel);
    if rel in i.byPath && i.byPath[rel] != wd {
      assert i.byWd[i.byPath[rel]] == rel && after.byWd[i.byPath[rel]] == rel;
      assert after.byPath[rel] == wd;
    }
  }

  lemma RemoveKeeps(i: Index, wd: Wd)
    requires Inverse(i)
    ensures Inverse(Remove(i, wd)) && wd !in Remove(i, wd).byWd
    ensures forall p :: p in Remove(i, wd).byPath <==> p in i.byPath && i.byPath[p] != wd
  {
  }

  /** What goes is exactly what lies at or below the directory; the rest stays as it was. */
  lemma RemoveSubtreeKeeps(i: Index, rel: Dir)
    requires Inverse(i)
    ensures var after := RemoveSubtree(i, rel);
      && Inverse(after)
      && (forall wd :: wd in WdsWithin(i, rel) <==> wd in i.byWd && Within(i.byWd[wd], rel))
      && (forall wd :: wd in after.byWd <==> wd in i.byWd && !Within(i.byWd[wd], rel))
      && (forall p :: p in after.byPath <==> p in i.byPath && !Within(p, rel))
  {
    hide Within;
  }

  /** No watched path that stays is in the way of one that moves. */
  ghost predicate Clear(i: Index, from: Dir, to: Dir) {
    forall p :: p in i.byPath && Within(p, from) && Target(p, from, to) in i.byPath ==> Within(Target(p, from, to), from)
  }

  lemma RenamedPath(i: Index, from: Dir, to: Dir, p: Dir)
    requires p in i.byPath && (Within(p, from) || Clear(i, from, to))
    ensures var q := if Within(p, from) then Target(p, from, to) else p;
      q in Rename(i, from, to).byPath && Rename(i, from, to).byPath[q] == i.byPath[p]
  {
    hide Within, Target;
    MovedIs(i.byPath, from, to);
  }

  lemma RenamedFrom(i: Index, from: Dir, to: Dir, q: Dir)
    requires q in Rename(i, from, to).byPath
    ensures (q in i.byPath && !Within(q, from) && Rename(i, from, to).byPath[q] == i.byPath[q])
      || (Within(q, to) && Within(Target(q, to, from), from) && Target(q, to, from) in i.byPath
          && Target(Target(q, to, from), from, to) == q && Rename(i, from, to).byPath[q] == i.byPath[Target(q, to, from)])
  {
    hide Within, Target;
    MovedIs(i.byPath, from, to);
  }

  /** Renaming keeps the index consistent exactly when no path that stays is in the way. */
  lemma RenameKeepsExactly(i: Index, from: Dir, to: Dir)
    requires Inverse(i)
    ensures Inverse(Rename(i, from, to)) <==> Clear(i, from, to)
  {
    hide Within, Target, Moved;
    var after := Rename(i, from, to);
    if Clear(i, from, to) {
      forall wd | wd in after.byWd ensures after.byWd[wd] in after.byPath && after.byPath[after.byWd[wd]] == wd {
        RenamedPath(i, from, to, i.byWd[wd]);
      }
      forall q | q in after.byPath ensures after.byPath[q] in after.byWd && after.byWd[after.byPath[q]] == q {
        RenamedFrom(i, from, to, q);
      }
    } else {
      var p :| p in i.byPath && Within(p, from) && Target(p, from, to) in i.byPath && !Within(Target(p, from, to), from);
      var q := Target(p, from, to);
      RenamedPath(i, from, to, p);
      assert after.byWd[i.byPath[q]] == q && after.byPath[q] == i.byPath[p];
      assert i.byPath[p] != i.byPath[q];
    }
  }

  lemma BackClear(i: Index, from: Dir, to: Dir)
    requires Inverse(i) && forall q :: q in i.byPath && Within(q, to) ==> Within(q, from)
    ensures Clear(Rename(i, from, to), to, from)
  {
    hide Within, Target, Moved;
    var there := Rename(i, from, to);
    forall q | q in there.byPath && Within(q, to) && Target(q, to, from) in there.byPath
      ensures Within(Target(q, to, from), to)
    {
      RenamedFrom(i, from, to, q);
      TargetBack(q, to, from);
      RenamedFrom(i, from, to, Target(q, to, from));
    }
  }

  lemma ByWdDetermines(i: Index, j: Index)
    requires Inverse(i) && Inverse(j) && i.byWd == j.byWd
    ensures i == j
  {
    forall p ensures (p in i.byPath <==> p in j.byPath) && (p in i.byPath ==> i.byPath[p] == j.byPath[p]) {
      if p in i.byPath { assert j.byWd[i.byPath[p]] == p; }
      if p in j.byPath { assert i.byWd[j.byPath[p]] == p; }
    }
    assert i.byPath == j.byPath;
  }

  lemma BackByWd(i: Index, from: Dir, to: Dir)
    requires Inverse(i) && forall q :: q in i.byPath && Within(q, to) ==> Within(q, from)
    ensures Rename(Rename(i, from, to), to, from).byWd == i.byWd
  {
    hide Within, Target, Moved;
    var there := Rename(i, from, to);
    forall wd | wd in i.byWd ensures Rename(there, to, from).byWd[wd] == i.byWd[wd] {
      if Within(i.byWd[wd], from) { TargetBack(i.byWd[wd], from, to); }
    }
  }

  /** Into a prefix where nothing is watched but what moves, renaming can be undone by renaming back. */
  lemma RenameBackRestores(i: Index, from: Dir, to: Dir)
    requires Inverse(i) && forall q :: q in i.byPath && Within(q, to) ==> Within(q, from)
    ensures Clear(i, from, to) && Rename(Rename(i, from, to), to, from) == i
  {
    hide Target, Rename, Within, Inverse;
    forall p | p in i.byPath && Within(p, from) ensures Within(Target(p, from, to), to) {
      TargetBack(p, from, to);
    }
    assert Clear(i, from, to);
    RenameKeepsExactly(i, from, to);
    BackClear(i, from, to);
    RenameKeepsExactly(Rename(i, from, to), to, from);
    BackByWd(i, from, to);
    ByWdDetermines(Rename(Rename(i, from, to), to, from), i);
  }
}

/** The index as the watcher keeps it. */
module Watching {
  import opened WatchIndex
  import Spec = WatchIndex

  class Tree {
    var byWd: map<Wd, Dir>
    var byPath: map<Dir, Wd>

    constructor ()
      ensures Now() == Index(map[], map[])
    {
      byWd, byPath := map[], map[];
    }

    function Now(): Index
      reads this
    {
      Index(byWd, byPath)
    }

    method Add(wd: Wd, rel: Dir)
      modifies this
      ensures Now() == Spec.Add(old(Now()), wd, rel)
      ensures byWd[wd] == rel && byPath[rel] == wd
      ensures forall p :: p != rel && (wd in old(byWd) ==> p != old(byWd)[wd]) ==>
        (p in byPath <==> p in old(byPath)) && (p in byPath ==> byPath[p] == old(byPath)[p])
      ensures Inverse(old(Now())) ==> (Inverse(Now()) <==> rel !in old(byPath) || old(byPath)[rel] == wd)
    {
      hide Inverse;
      if Inverse(Now()) { AddKeepsExactly(Now(), wd, rel); }
      if wd in byWd && byWd[wd] != rel { byPath := byPath - {byWd[wd]}; }
      byWd := byWd[wd := rel];
      byPath := byPath[rel := wd];
    }

    method Remove(wd: Wd)
      modifies this
      ensures Now() == Spec.Remove(old(Now()), wd)
    {
      if wd in byWd { byPath := byPath - {byWd[wd]}; }
      byWd := byWd - {wd};
    }

    /** Deletes while walking the map, and returns the descriptors met. */
    method RemoveSubtree(rel: Dir) returns (wds: seq<Wd>)
      modifies this
      ensures Now() == Spec.RemoveSubtree(old(Now()), rel)
      ensures forall wd :: wd in wds <==> wd in WdsWithin(old(Now()), rel)
    {
      hide Within, Swept;
      ghost var was := Now();
      wds := [];
      var rest := byPath.Keys;
      SweepStarts(was, rel);
      while rest != {}
        invariant Swept(was, rest, rel, Now(), wds)
        decreases |rest|
      {
        var p :| p in rest;
        SweepStep(was, rest, rel, Now(), wds, p);
        rest := rest - {p};
        if Within(p, rel) {
          wds := wds + [byPath[p]];
          byWd := byWd - {byPath[p]};
          byPath := byPath - {p};
        }
      }
      SweepEnds(was, rel, Now(), wds);
    }

    lemma NextMoved(all: map<Dir, Wd>, rest: set<Dir>, p: Dir, from: Dir, to: Dir)
      requires p in rest && p in all && Within(p, from)
      ensures Spec.Moved(all - (rest - {p}), from, to)
        == Spec.Moved(all - rest, from, to)[Target(p, from, to) := all[p]]
    {
      hide Within, Target;
      MovedIs(all - rest, from, to);
      MovedIs(all - (rest - {p}), from, to);
      TargetBack(p, from, to);
      var before, after := Spec.Moved(all - rest, from, to), Spec.Moved(all - (rest - {p}), from, to);
      assert (all - (rest - {p}))[p] == all[p];
      forall q | q in before ensures q in after {
        assert Target(q, to, from) in all - (rest - {p});
      }
      forall q | q in after ensures q in before || q == Target(p, from, to) {
        assert Target(q, to, from) in all - rest || Target(q, to, from) == p;
      }
      forall q | q in before && q != Target(p, from, to) ensures after[q] == before[q] {
        assert Target(q, to, from) in all - (rest - {p});
      }
    }

    lemma NextStays(all: map<Dir, Wd>, rest: set<Dir>, p: Dir, from: Dir, to: Dir)
      requires p in rest && p in all && !Within(p, from)
      ensures Spec.Moved(all - (rest - {p}), from, to) == Spec.Moved(all - rest, from, to)
    {
      hide Within, Target;
      MovedIs(all - rest, from, to);
      MovedIs(all - (rest - {p}), from, to);
      var before, after := Spec.Moved(all - rest, from, to), Spec.Moved(all - (rest - {p}), from, to);
      forall q | q in before ensures q in after && after[q] == before[q] {
        assert Target(q, to, from) in all - (rest - {p});
      }
      forall q | q in after ensures q in before {
        assert Target(q, to, from) in all - rest;
      }
    }

    method RenameSubtree(from: Dir, to: Dir)
      requires Inverse(Now())
      modifies this
      ensures Now() == Spec.Rename(old(Now()), from, to)
    {
      hide Within, Target, Spec.Moved;
      var moved := TakeOut(from, to);
      PutBack(old(Now()), from, to, moved);
    }

    /** What a descriptor stands for while the targets in `rest` have yet to be put back. */
    ghost function Halfway(p: Dir, from: Dir, to: Dir, rest: set<Dir>): Dir {
      if Within(p, from) && Target(p, from, to) !in rest then Target(p, from, to) else p
    }

    ghost function HalfPaths(stay: map<Dir, Wd>, moved: map<Dir, Wd>, rest: set<Dir>): map<Dir, Wd> {
      stay + (moved - rest)
    }

    ghost function HalfWds(i: Index, from: Dir, to: Dir, rest: set<Dir>): map<Wd, Dir> {
      map wd | wd in i.byWd :: Halfway(i.byWd[wd], from, to, rest)
    }

    lemma PathsNext(stay: map<Dir, Wd>, moved: map<Dir, Wd>, rest: set<Dir>, q: Dir)
      requires q in rest && rest <= moved.Keys
      ensures HalfPaths(stay, moved, rest - {q}) == HalfPaths(stay, moved, rest)[q := moved[q]]
    {
    }

    lemma WdsNext(i: Index, from: Dir, to: Dir, rest: set<Dir>, q: Dir)
      requires Inverse(i) && q in Spec.Moved(i.byPath, from, to) && q in rest
      ensures HalfWds(i, from, to, rest - {q}) == HalfWds(i, from, to, rest)[Spec.Moved(i.byPath, from, to)[q] := q]
    {
      hide Inverse, Halfway, Spec.Moved;
      HalfwayNext(i, from, to, rest, q);
    }

    lemma HalfwayNext(i: Index, from: Dir, to: Dir, rest: set<Dir>, q: Dir)
      requires Inverse(i) && q in Spec.Moved(i.byPath, from, to) && q in rest
      ensures var wd := Spec.Moved(i.byPath, from, to)[q];
        && wd in i.byWd && Halfway(i.byWd[wd], from, to, rest - {q}) == q
        && forall v :: v in i.byWd && v != wd ==> Halfway(i.byWd[v], from, to, rest - {q}) == Halfway(i.byWd[v], from, to, rest)
    {
      hide Within, Target, Spec.Moved;
      OneTarget(i, from, to, q);
    }

    lemma AtFirst(i: Index, from: Dir, to: Dir, stay: map<Dir, Wd>)
      requires Inverse(i)
      ensures var moved := Spec.Moved(i.byPath, from, to);
        HalfWds(i, from, to, moved.Keys) == i.byWd && HalfPaths(stay, moved, moved.Keys) == stay
    {
      hide Within, Target, Spec.Moved;
      MovedIs(i.byPath, from, to);
      var moved := Spec.Moved(i.byPath, from, to);
      assert moved - moved.Keys == map[];
      forall wd | wd in i.byWd ensures Halfway(i.byWd[wd], from, to, moved.Keys) == i.byWd[wd] {
        assert i.byWd[wd] in i.byPath;
      }
    }

    lemma AtLast(i: Index, from: Dir, to: Dir, stay: map<Dir, Wd>, moved: map<Dir, Wd>)
      ensures HalfPaths(stay, moved, {}) == stay + moved
      ensures HalfWds(i, from, to, {}) ==
        map wd | wd in i.byWd :: if Within(i.byWd[wd], from) then Target(i.byWd[wd], from, to) else i.byWd[wd]
    {
      hide Within, Target;
      assert moved - {} == moved;
    }

    /** Second loop: both maps take up the new names. */
    method PutBack(ghost i: Index, from: Dir, to: Dir, moved: map<Dir, Wd>)
      requires Inverse(i) && byWd == i.byWd && moved == Spec.Moved(i.byPath, from, to)
      modifies this
      ensures byPath == old(byPath) + moved
      ensures byWd == map wd | wd in i.byWd :: if Within(i.byWd[wd], from) then Target(i.byWd[wd], from, to) else i.byWd[wd]
    {
      hide *;
      ghost var stay := byPath;
      AtFirst(i, from, to, stay);
      var rest := moved.Keys;
      while rest != {}
        invariant rest <= moved.Keys
        invariant byPath == HalfPaths(stay, moved, rest)
        invariant byWd == HalfWds(i, from, to, rest)
        decreases |rest|
      {
        var q :| q in rest;
        WdsNext(i, from, to, rest, q);
        PathsNext(stay, moved, rest, q);
        rest := rest - {q};
        byPath := byPath[q := moved[q]];
        byWd := byWd[moved[q] := q];
      }
      AtLast(i, from, to, stay, moved);
    }

    /** A target belongs to one descriptor alone. */
    lemma OneTarget(i: Index, from: Dir, to: Dir, q: Dir)
      requires Inverse(i) && q in Spec.Moved(i.byPath, from, to)
      ensures var wd := Spec.Moved(i.byPath, from, to)[q];
        && wd in i.byWd && Within(i.byWd[wd], from) && Target(i.byWd[wd], from, to) == q
        && forall v :: v in i.byWd && Within(i.byWd[v], from) && Target(i.byWd[v], from, to) == q ==> v == wd
    {
      hide Within, Target, Spec.Moved;
      MovedIs(i.byPath, from, to);
      forall v | v in i.byWd && Within(i.byWd[v], from) && Target(i.byWd[v], from, to) == q
        ensures v == Spec.Moved(i.byPath, from, to)[q]
      {
        TargetBack(i.byWd[v], from, to);
      }
    }

    /** First loop: what moves is taken out of the path index and put under its new name. */
    method TakeOut(from: Dir, to: Dir) returns (moved: map<Dir, Wd>)
      modifies this`byPath
      ensures byPath == map p | p in old(byPath) && !Within(p, from) :: old(byPath)[p]
      ensures moved == Spec.Moved(old(byPath), from, to)
    {
      hide Within, Target, Spec.Moved;
      moved := map[];
      ghost var all := byPath;
      var rest := byPath.Keys;
      NothingMoved(from, to);
      assert all - rest == map[];
      while rest != {}
        invariant rest <= all.Keys
        invariant byPath == map p | p in all && (p in rest || !Within(p, from)) :: all[p]
        invariant moved == Spec.Moved(all - rest, from, to)
        decreases |rest|
      {
        var p :| p in rest;
        if Within(p, from) {
          NextMoved(all, rest, p, from, to);
          moved := moved[Target(p, from, to) := byPath[p]];
          byPath := byPath - {p};
        } else {
          NextStays(all, rest, p, from, to);
        }
        rest := rest - {p};
      }
      assert all - {} == all;
    }

    lemma NothingMoved(from: Dir, to: Dir)
      ensures Spec.Moved(map[], from, to) == map[]
    {
      hide Within, Target;
    }
  }
}
