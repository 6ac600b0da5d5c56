// internal/engine/delete.go: removing a directory sets aside whatever the other side never saw.

module Removal {
  import opened Disks
  import opened Events
  import opened Exclude
  import opened Frames
  import opened Names
  import opened Nodes
  import opened Options
  import opened Paths
  import opened Settings
  import opened Sync

  lemma RebaseOrder(x: Path, y: Path, p: Path, to: Path)
    requires AtOrUnder(x, p) && AtOrUnder(y, p)
    ensures Under(Rebase(x, p, to), Rebase(y, p, to)) <==> Under(x, y)
    ensures Rebase(x, p, to) == Rebase(y, p, to) <==> x == y
  {
    var a, b := Rebase(x, p, to), Rebase(y, p, to);
    assert x == p + x[|p|..] && y == p + y[|p|..];
    var n, m := |b|, |y|;
    if |y| < |x| {
      assert a[|b|] == x[|y|];
      assert a[..|b|] == to + x[|p|..|y|] && x[..|y|] == p + x[|p|..|y|];
      assert a[..|b|][|to|..] == x[|p|..|y|] && b[|to|..] == y[|p|..];
      assert x[..|y|][|p|..] == x[|p|..|y|];
    }
    assert a[|to|..] == x[|p|..] && b[|to|..] == y[|p|..];
  }

  /** d' is d with the given paths moved from below p to below `to`. */
  ghost predicate MovedOver(d: Disk, d': Disk, p: Path, to: Path, paths: seq<Path>)
    requires forall x :: x in paths ==> AtOrUnder(x, p)
  {
    && Tree(d')
    && (forall x :: !AtOrUnder(x, to) ==> At(d', x) == if x in paths then None else At(d, x))
    && (forall x :: x in paths ==> x in d && At(d', Rebase(x, p, to)) == Some(d[x]))
    && (forall y :: AtOrUnder(y, to) && y in d' ==>
          exists x :: x in paths && (y == Rebase(x, p, to) || (d'[y].Dir? && Under(Rebase(x, p, to), y))))
  }

  /** Where the moves start from. */
  ghost predicate MoveReady(d: Disk, p: Path, to: Path, paths: seq<Path>) {
    && Tree(d) && HasParents(d, to)
    && (forall x :: AtOrUnder(x, to) ==> x !in d && !AtOrUnder(x, p))
    && (forall x :: x in paths ==> x in d && AtOrUnder(x, p) && !d[x].Dir?)
    && NoDuplicates(paths)
  }

  lemma TargetClear(d: Disk, d': Disk, p: Path, to: Path, moved: seq<Path>, r: Path)
    requires MoveReady(d, p, to, moved + [r]) && (forall x :: x in moved ==> x in moved + [r])
    requires forall x :: x in moved ==> AtOrUnder(x, p)
    requires r in d && AtOrUnder(r, p) && !d[r].Dir?
    requires MovedOver(d, d', p, to, moved)
    ensures ParentsFree(d', Rebase(r, p, to))
    ensures Rebase(r, p, to) in d' ==> !d'[Rebase(r, p, to)].Dir?
  {
    var t := Rebase(r, p, to);
    RebaseBack(r, p, to);
    forall q | q in Ancestors(t) && q in d' ensures d'[q].Dir? {
      AncestorsAreAbove(t, q);
      if AtOrUnder(q, to) {
        var x :| x in moved && (q == Rebase(x, p, to) || (d'[q].Dir? && Under(Rebase(x, p, to), q)));
        RebaseOrder(r, x, p, to);
      } else {
        AboveComparable(t, q, to);
        assert q in d && d[q].Dir?;
        assert At(d', q) == At(d, q) || q in moved;
      }
    }
    if t in d' && d'[t].Dir? {
      var x :| x in moved && (t == Rebase(x, p, to) || Under(Rebase(x, p, to), t));
      RebaseOrder(x, r, p, to);
    }
  }

  lemma MoveTree(d: Disk, from: Path, to: Path)
    requires Tree(d) && from in d && !d[from].Dir? && ParentsFree(d, to) && (to in d ==> !d[to].Dir?)
    requires !Under(to, from) && from != to
    ensures MoveFile(d, from, to).Success? && Tree(MoveFile(d, from, to).value)
  {
    var d' := MoveFile(d, from, to).value;
    forall x, q | x in d' && Under(x, q) ensures q in d' && d'[q].Dir? {
      AncestorsAreAbove(to, q);
      if x == to {
      } else if x in d {
        assert q in d && d[q].Dir?;
      } else {
        AncestorsAreAbove(to, x);
        UnderTransitive(to, x, q);
      }
    }
  }

  /** A rename, entry by entry. */
  lemma MoveFileIs(d: Disk, from: Path, to: Path)
    requires MoveFile(d, from, to).Success? && from != to
    ensures from in d
    ensures At(MoveFile(d, from, to).value, to) == Some(d[from])
    ensures forall x :: x != to && !Under(to, x) ==>
      At(MoveFile(d, from, to).value, x) == if x == from then None else At(d, x)
    ensures forall x :: Under(to, x) && x in d && x != from ==> At(MoveFile(d, from, to).value, x) == At(d, x)
    ensures forall x :: Under(to, x) && x !in d ==> At(MoveFile(d, from, to).value, x) == Some(Dir(DEFAULT_MODE))
  {
    forall x ensures x in Ancestors(to) <==> Under(to, x) {
      AncestorsAreAbove(to, x);
    }
  }

  /** Where one more move starts from. */
  ghost predicate MoveNext(d: Disk, d': Disk, p: Path, to: Path, moved: seq<Path>, r: Path)
    requires (forall x :: x in moved ==> AtOrUnder(x, p))
  {
    && MoveReady(d, p, to, moved + [r]) && MovedOver(d, d', p, to, moved) && AtOrUnder(r, p)
    && MoveFile(d', r, Rebase(r, p, to)).Success? && Rebase(r, p, to) != r && !Under(Rebase(r, p, to), r)
  }

  lemma MovedOutside(d: Disk, d': Disk, p: Path, to: Path, moved: seq<Path>, r: Path, x: Path)
    requires (forall y :: y in moved ==> AtOrUnder(y, p)) && MoveNext(d, d', p, to, moved, r) && !AtOrUnder(x, to)
    ensures At(MoveFile(d', r, Rebase(r, p, to)).value, x) == if x in moved + [r] then None else At(d, x)
  {
    hide MoveFile, Tree, HasParents, NoDuplicates;
    var t := Rebase(r, p, to);
    MoveFileIs(d', r, t);
    RebaseBack(r, p, to);
    assert At(d', x) == if x in moved then None else At(d, x);
    if Under(t, x) {
      AboveComparable(t, x, to);
      ParentStays(d, p, to, moved, r, x);
    }
  }

  lemma ParentStays(d: Disk, p: Path, to: Path, moved: seq<Path>, r: Path, x: Path)
    requires MoveReady(d, p, to, moved + [r]) && Under(to, x)
    ensures x in d && d[x].Dir? && x !in moved + [r] && x !in moved
  {
    hide NoDuplicates;
    assert forall y :: y in moved ==> y in moved + [r];
  }

  lemma MovedInside(d: Disk, d': Disk, p: Path, to: Path, moved: seq<Path>, r: Path, x: Path)
    requires (forall y :: y in moved ==> AtOrUnder(y, p)) && MoveNext(d, d', p, to, moved, r)
    requires x in moved + [r] && AtOrUnder(x, p)
    ensures x in d && At(MoveFile(d', r, Rebase(r, p, to)).value, Rebase(x, p, to)) == Some(d[x])
  {
    hide MoveFile, Tree, HasParents, NoDuplicates;
    MoveFileIs(d', r, Rebase(r, p, to));
    RebaseOrder(x, r, p, to);
    RebaseOrder(r, x, p, to);
    RebaseBack(x, p, to);
    assert r in moved + [r];
    if x == r {
      NotYetMoved(moved, r);
      assert At(d', r) == At(d, r);
    } else {
      assert At(d', Rebase(x, p, to)) == Some(d[x]);
      RebaseBack(r, p, to);
      assert AtOrUnder(Rebase(x, p, to), to);
    }
  }

  lemma MovedFrom(d: Disk, d': Disk, p: Path, to: Path, moved: seq<Path>, r: Path, y: Path)
    requires (forall x :: x in moved ==> AtOrUnder(x, p)) && (forall x :: x in moved + [r] ==> AtOrUnder(x, p))
    requires MoveNext(d, d', p, to, moved, r)
    requires AtOrUnder(y, to) && y in MoveFile(d', r, Rebase(r, p, to)).value
    ensures var after := MoveFile(d', r, Rebase(r, p, to)).value;
      exists x :: x in moved + [r] && (y == Rebase(x, p, to) || (after[y].Dir? && Under(Rebase(x, p, to), y)))
  {
    hide MoveFile, Tree, HasParents, NoDuplicates, Rebase;
    var t, after := Rebase(r, p, to), MoveFile(d', r, Rebase(r, p, to)).value;
    MoveFileIs(d', r, t);
    assert r in moved + [r];
    assert At(after, y) == Some(after[y]);
    if y != t && y in d' {
      var x :| x in moved && (y == Rebase(x, p, to) || (d'[y].Dir? && Under(Rebase(x, p, to), y)));
      assert x in moved + [r];
      assert y != r;
    }
  }

  lemma MoveOne(d: Disk, d': Disk, p: Path, to: Path, moved: seq<Path>, r: Path)
    requires MoveReady(d, p, to, moved + [r])
    requires (forall x :: x in moved ==> AtOrUnder(x, p)) && (forall x :: x in moved + [r] ==> AtOrUnder(x, p))
    requires MovedOver(d, d', p, to, moved)
    ensures MoveFile(d', r, Rebase(r, p, to)).Success?
    ensures MovedOver(d, MoveFile(d', r, Rebase(r, p, to)).value, p, to, moved + [r])
  {
    hide MoveFile, Tree, HasParents, Rebase;
    var t := Rebase(r, p, to);
    MoveSucceeds(d, d', p, to, moved, r);
    var after := MoveFile(d', r, t).value;
    forall x ensures !AtOrUnder(x, to) ==> At(after, x) == if x in moved + [r] then None else At(d, x) {
      if !AtOrUnder(x, to) { MovedOutside(d, d', p, to, moved, r, x); }
    }
    forall x | x in moved + [r] ensures x in d && At(after, Rebase(x, p, to)) == Some(d[x]) {
      MovedInside(d, d', p, to, moved, r, x);
    }
    forall y | AtOrUnder(y, to) && y in after
      ensures exists x :: x in moved + [r] && (y == Rebase(x, p, to) || (after[y].Dir? && Under(Rebase(x, p, to), y)))
    {
      MovedFrom(d, d', p, to, moved, r, y);
    }
  }

  lemma MoveSucceeds(d: Disk, d': Disk, p: Path, to: Path, moved: seq<Path>, r: Path)
    requires MoveReady(d, p, to, moved + [r])
    requires (forall x :: x in moved ==> AtOrUnder(x, p)) && (forall x :: x in moved + [r] ==> AtOrUnder(x, p))
    requires MovedOver(d, d', p, to, moved)
    ensures MoveNext(d, d', p, to, moved, r) && Tree(MoveFile(d', r, Rebase(r, p, to)).value)
  {
    hide MoveFile, HasParents, Rebase, Tree;
    var t := Rebase(r, p, to);
    assert r in moved + [r] && forall x :: x in moved ==> x in moved + [r];
    NotYetMoved(moved, r);
    TargetClear(d, d', p, to, moved, r);
    RebaseBack(r, p, to);
    assert At(d', r) == At(d, r);
    NotBelowSource(t, to, r, p);
    MoveTree(d', r, t);
  }

  lemma NotYetMoved(moved: seq<Path>, r: Path)
    requires NoDuplicates(moved + [r])
    ensures r !in moved && NoDuplicates(moved)
  {
    var all := moved + [r];
    assert all[|moved|] == r;
    assert forall i :: 0 <= i < |moved| ==> all[i] == moved[i];
  }

  lemma NotBelowSource(t: Path, to: Path, r: Path, p: Path)
    requires AtOrUnder(t, to) && AtOrUnder(r, p)
    requires !AtOrUnder(to, p) && !AtOrUnder(r, to)
    ensures !Under(t, r)
  {
    if Under(t, r) {
      AboveComparable(t, to, r);
      if r != p {
        UnderTransitive(to, r, p);
      }
    }
  }

  lemma {:induction false} MoveAsideMoves(d: Disk, p: Path, to: Path, paths: seq<Path>)
    requires MoveReady(d, p, to, paths) && forall x :: x in paths ==> AtOrUnder(x, p)
    ensures MoveAside(d, p, to, paths).error.None?
    ensures MovedOver(d, MoveAside(d, p, to, paths).disk, p, to, paths)
  {
    hide MovedOver, MoveFile, Rebase, Tree;
    if paths == [] {
      NothingMoved(d, p, to);
    } else {
      var n := |paths| - 1;
      var init, r := paths[..n], paths[n];
      assert paths == init + [r];
      InitReady(d, p, to, init, r);
      MoveAsideMoves(d, p, to, init);
      MoveOne(d, MoveAside(d, p, to, init).disk, p, to, init, r);
    }
  }

  lemma NothingMoved(d: Disk, p: Path, to: Path)
    requires MoveReady(d, p, to, [])
    ensures MovedOver(d, d, p, to, [])
  {
  }

  lemma InitReady(d: Disk, p: Path, to: Path, init: seq<Path>, r: Path)
    requires MoveReady(d, p, to, init + [r])
    ensures MoveReady(d, p, to, init)
    ensures forall x :: x in init + [r] ==> AtOrUnder(x, p)
    ensures forall x :: x in init ==> AtOrUnder(x, p)
  {
    NotYetMoved(init, r);
    assert forall x :: x in init ==> x in init + [r];
  }

  lemma {:induction false} UnsyncedNoDuplicates(cfg: Config, r: Replica, visits: seq<Path>)
    requires NoDuplicates(visits)
    ensures NoDuplicates(Unsynced(cfg, r, visits))
  {
    hide Unknown;
    if visits != [] {
      var n := |visits| - 1;
      assert visits == visits[..n] + [visits[n]];
      NotYetMoved(visits[..n], visits[n]);
      UnsyncedNoDuplicates(cfg, r, visits[..n]);
    }
  }

  lemma {:induction false} OnlyUnderNoDuplicates(v: seq<Path>, p: Path)
    requires NoDuplicates(v)
    ensures NoDuplicates(OnlyUnder(v, p))
  {
    if v != [] {
      var n := |v| - 1;
      assert v == v[..n] + [v[n]];
      NotYetMoved(v[..n], v[n]);
      OnlyUnderNoDuplicates(v[..n], p);
    }
  }

  /** What removeDir finds: exactly the unknown paths at or under the directory, each once. */
  lemma UnsyncedIsUnknown(cfg: Config, env: Env, r: Replica, p: Path)
    requires Faithful(env.walk(r.disk, p), r.disk, p)
    ensures var u := Unsynced(cfg, r, Visits(env, r.disk, p));
      NoDuplicates(u) && forall x :: x in u <==> AtOrUnder(x, p) && Unknown(cfg, r, x)
  {
    hide Excluded;
    OnlyUnderNoDuplicates(env.walk(r.disk, p), p);
    UnsyncedNoDuplicates(cfg, r, Visits(env, r.disk, p));
  }

  /** The outcome promised for a removal: see RemoveDirPreserves. */
  ghost predicate RemovedKeepingUnknown(cfg: Config, r: Replica, d': Disk, p: Path, to: Path) {
    && Tree(d')
    && (forall x :: AtOrUnder(x, p) ==> x !in d')
    && (forall x :: !AtOrUnder(x, p) && !AtOrUnder(x, to) ==> At(d', x) == At(r.disk, x))
    && (cfg.dirDelete == PreserveUnknown ==>
          forall x :: AtOrUnder(x, p) && Unknown(cfg, r, x) ==> At(d', Rebase(x, p, to)) == Some(r.disk[x]))
    && (forall y :: AtOrUnder(y, to) && y in d' ==> !d'[y].Dir? ==>
          exists x :: AtOrUnder(x, p) && Unknown(cfg, r, x) && y == Rebase(x, p, to))
  }

  /**
   * Removing a directory under preserve-unknown leaves nothing at or under it, keeps every file the
   * table does not vouch for under the preserved directory, at the same relative path and unchanged,
   * keeps nothing else there, and touches nothing outside those two subtrees.
   */
  lemma RemoveDirPreserves(cfg: Config, env: Env, s: State, side: Side, p: Path)
    requires Clean(p) && WalkFaithful(env)
    requires Tree(s.Of(side).disk) && HasParents(s.Of(side).disk, p)
    requires NamesFree(s.Of(side).disk, p, env.clock(p))
    ensures var o := RemoveDir(cfg, env, s, side, p);
      && o.error.None?
      && RemovedKeepingUnknown(cfg, s.Of(side), o.state.Of(side).disk, p, PreservedDirName(p, side, env.clock(p)))
      && o.state.Of(side.Opposite()) == s.Of(side.Opposite())
      && o.state.Of(side).rows == s.Of(side).rows
      && forall x :: x != p ==> Find(o.state.conflicts, x) == Find(s.conflicts, x)
  {
    hide *;
    RemoveDirIs(cfg, env, s, side, p);
    var at := env.clock(p);
    var to := PreservedDirName(p, side, at);
    NamesFreeFacts(s.Of(side).disk, p, at, side);
    SavedIsNotOriginal(p, side, at);
    PreservedHasParents(s.Of(side).disk, p, side, at);
    EmptiedKeepsUnknown(cfg, env, s.Of(side), p, to);
  }

  lemma EmptiedKeepsUnknown(cfg: Config, env: Env, r: Replica, p: Path, to: Path)
    requires WalkFaithful(env) && Tree(r.disk) && HasParents(r.disk, to)
    requires forall x :: AtOrUnder(x, to) ==> x !in r.disk && !AtOrUnder(x, p)
    ensures EmptiedDisk(cfg, env, r, p, to).error.None?
    ensures RemovedKeepingUnknown(cfg, r, EmptiedDisk(cfg, env, r, p, to).disk, p, to)
  {
    hide Unknown, MoveAside, Tree, HasParents, Rebase, RemovedKeepingUnknown, MovedOver;
    var unsynced := Unsynced(cfg, r, Visits(env, r.disk, p));
    assert Faithful(env.walk(r.disk, p), r.disk, p);
    UnsyncedIsUnknown(cfg, env, r, p);
    if !SetsAside(cfg, env, r, p) {
      PlainRemoval(cfg, r, p, to, unsynced);
    } else {
      UnknownIsFile(cfg, r);
      MoveAsideMoves(r.disk, p, to, unsynced);
      RemovalAfterMoves(cfg, r, MoveAside(r.disk, p, to, unsynced).disk, p, to, unsynced);
    }
  }

  lemma RemoveDirIs(cfg: Config, env: Env, s: State, side: Side, p: Path)
    ensures var o, e := RemoveDir(cfg, env, s, side, p), EmptiedDisk(cfg, env, s.Of(side), p, PreservedDirName(p, side, env.clock(p)));
      && o.error == e.error
      && o.state.Of(side).disk == e.disk && o.state.Of(side).rows == s.Of(side).rows
      && o.state.Of(side.Opposite()) == s.Of(side.Opposite())
      && forall x :: x != p ==> Find(o.state.conflicts, x) == Find(s.conflicts, x)
  {
    hide PreservedDirName, EmptiedDisk, SetsAside;
  }

  lemma UnknownIsFile(cfg: Config, r: Replica)
    ensures forall x :: Unknown(cfg, r, x) ==> x in r.disk && !r.disk[x].Dir?
  {
    hide Excluded;
  }

  lemma PreservedHasParents(d: Disk, p: Path, side: Side, at: Stamp)
    requires HasParents(d, p)
    ensures HasParents(d, PreservedDirName(p, side, at))
  {
    hide PreservedDirName;
    forall q | Under(PreservedDirName(p, side, at), q) ensures q in d && d[q].Dir? {
      PreservedDirSitsBeside(p, side, at, q);
    }
  }

  lemma PlainRemoval(cfg: Config, r: Replica, p: Path, to: Path, unsynced: seq<Path>)
    requires Tree(r.disk) && (forall x :: AtOrUnder(x, to) ==> x !in r.disk)
    requires cfg.dirDelete == Force || unsynced == []
    requires forall x :: x in unsynced <==> AtOrUnder(x, p) && Unknown(cfg, r, x)
    ensures RemovedKeepingUnknown(cfg, r, RemoveAll(r.disk, p), p, to)
  {
    hide Unknown, Tree;
    TreeRemoveAll(r.disk, p);
  }

  lemma RemovalAfterMoves(cfg: Config, r: Replica, d': Disk, p: Path, to: Path, unsynced: seq<Path>)
    requires forall x :: x in unsynced <==> AtOrUnder(x, p) && Unknown(cfg, r, x)
    requires MovedOver(r.disk, d', p, to, unsynced)
    requires forall x :: AtOrUnder(x, to) ==> !AtOrUnder(x, p)
    requires forall x :: Unknown(cfg, r, x) ==> x in r.disk
    ensures RemovedKeepingUnknown(cfg, r, RemoveAll(d', p), p, to)
  {
    hide Unknown, Tree;
    TreeRemoveAll(d', p);
    var after := RemoveAll(d', p);
    assert forall x :: At(after, x) == if AtOrUnder(x, p) then None else At(d', x);
    forall x | AtOrUnder(x, p) && Unknown(cfg, r, x) ensures At(after, Rebase(x, p, to)) == Some(r.disk[x]) {
      RebaseBack(x, p, to);
      assert x in unsynced;
    }
  }
}
