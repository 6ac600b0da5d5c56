// Acting on an inventory taken before the first action is harmless (internal/engine/resync.go):
// the pass ends like one that looks again, and hashes again, just before each action.

module Stale {
  import opened Actions
  import opened Digests
  import opened Disks
  import opened Events
  import opened Exclude
  import opened Frames
  import opened Like
  import opened Names
  import opened Nodes
  import opened Options
  import opened Passes
  import opened Paths
  import opened Reconciled
  import opened Settings
  import opened Store
  import opened Sync

  /** A turn that decides from the disks as they are; only a type conflict settles what lies below it. */
  function FreshStep(cfg: Config, env: Env, pass: Pass, p: Path): Pass {
    if UnderAny(p, pass.handled) then pass
    else
      var acted := ActNow(cfg, env, pass.state, p);
      Pass(acted.outcome.state, if acted.typeClash then pass.handled + [p] else pass.handled)
  }

  function FreshPass(cfg: Config, env: Env, s: State, order: seq<Path>): Pass {
    if order == [] then Pass(s, [])
    else FreshStep(cfg, env, FreshPass(cfg, env, s, order[..|order| - 1]), order[|order| - 1])
  }

  // ------------------------------------------- two states that differ in rows alone

  ghost predicate SameButRows(s: State, t: State) {
    s.a.disk == t.a.disk && s.b.disk == t.b.disk && s.conflicts == t.conflicts
  }

  predicate RowsAgreeAt(s: State, t: State, x: Path) {
    Sync.Find(s.a.rows, x) == Sync.Find(t.a.rows, x) && Sync.Find(s.b.rows, x) == Sync.Find(t.b.rows, x)
  }

  /** All that an action at p can ask of the table is the same in both. */
  ghost predicate AlikeAt(s: State, t: State, p: Path) {
    SameButRows(s, t) && forall x :: AtOrUnder(x, p) ==> RowsAgreeAt(s, t, x)
  }

  /** Rows that agreed before still do. */
  ghost predicate RowsFollow(s: State, t: State, s': State, t': State) {
    forall x :: RowsAgreeAt(s, t, x) ==> RowsAgreeAt(s', t', x)
  }

  ghost predicate Parallel(s: State, t: State, o: Outcome, o': Outcome) {
    SameButRows(o.state, o'.state) && o.error == o'.error && RowsFollow(s, t, o.state, o'.state)
  }

  lemma ParallelRecorded(cfg: Config, s: State, t: State, p: Path, writes: seq<(Side, Path)>)
    requires SameButRows(s, t)
    ensures Parallel(s, t, Recorded(cfg, s, p, writes), Recorded(cfg, t, p, writes))
  {
    hide EntryFor;
  }

  lemma FollowNothing(s: State, t: State, s': State, t': State)
    requires s'.a.rows == s.a.rows && s'.b.rows == s.b.rows && t'.a.rows == t.a.rows && t'.b.rows == t.b.rows
    ensures RowsFollow(s, t, s', t')
  {
  }

  lemma CopyAcrossAlike(s: State, t: State, src: Side, p: Path)
    requires SameButRows(s, t)
    ensures CopyAcross(s, src, p).Success? == CopyAcross(t, src, p).Success?
    ensures CopyAcross(s, src, p).Failure? ==> CopyAcross(s, src, p).error == CopyAcross(t, src, p).error
    ensures CopyAcross(s, src, p).Success? ==>
      var s', t' := CopyAcross(s, src, p).value, CopyAcross(t, src, p).value; SameButRows(s', t') && RowsFollow(s, t, s', t')
  {
    hide CopyFile, Base;
  }

  lemma CopyAsideAlike(s: State, t: State, side: Side, p: Path, name: Path)
    requires SameButRows(s, t)
    ensures CopyAside(s, side, p, name).Success? == CopyAside(t, side, p, name).Success?
    ensures CopyAside(s, side, p, name).Failure? ==>
      CopyAside(s, side, p, name).error == CopyAside(t, side, p, name).error
    ensures CopyAside(s, side, p, name).Success? ==>
      var s', t' := CopyAside(s, side, p, name).value, CopyAside(t, side, p, name).value;
      SameButRows(s', t') && RowsFollow(s, t, s', t')
  {
    hide CopyFile, Base;
  }

  lemma KeepBothAlike(cfg: Config, s: State, t: State, src: Side, p: Path, now: Stamp)
    requires SameButRows(s, t)
    ensures Parallel(s, t, KeepBoth(cfg, s, src, p, now), KeepBoth(cfg, t, src, p, now))
  {
    hide CopyAcross, CopyAside, ConflictName, RecordPair, CloseConflict, Recorded;
    var dst := src.Opposite();
    var name := ConflictName(p, dst, now);
    CopyAsideAlike(s, t, dst, p, name);
    if CopyAside(s, dst, p, name).Success? {
      var s1, t1 := CopyAside(s, dst, p, name).value, CopyAside(t, dst, p, name).value;
      CopyAcrossAlike(s1, t1, src, p);
      if CopyAcross(s1, src, p).Success? {
        var s2 := ConflictClosed(CopyAcross(s1, src, p).value, p, "preserve:" + name);
        var t2 := ConflictClosed(CopyAcross(t1, src, p).value, p, "preserve:" + name);
        ParallelRecorded(cfg, s2, t2, p, [(dst, name), (dst, p)]);
        assert RowsFollow(s, t, s2, t2);
      }
    }
  }

  lemma NewerAlike(cfg: Config, s: State, t: State, src: Side, p: Path)
    requires SameButRows(s, t) && p in s.a.disk && p in s.b.disk
    ensures Parallel(s, t, NewerWinsOver(cfg, s, src, p), NewerWinsOver(cfg, t, src, p))
  {
    hide CopyAcross, RecordPair, CloseConflict, Recorded;
    var dst := src.Opposite();
    var winner := if StatOf(s.Of(dst).disk[p]).mtime > StatOf(s.Of(src).disk[p]).mtime then dst else src;
    CopyAcrossAlike(s, t, winner, p);
    if CopyAcross(s, winner, p).Success? {
      var s2 := ConflictClosed(CopyAcross(s, winner, p).value, p, "newer-wins");
      var t2 := ConflictClosed(CopyAcross(t, winner, p).value, p, "newer-wins");
      ParallelRecorded(cfg, s2, t2, p, [(winner.Opposite(), p)]);
      assert RowsFollow(s, t, s2, t2);
    }
  }

  lemma ResolveAlike(cfg: Config, s: State, t: State, src: Side, p: Path, now: Stamp)
    requires SameButRows(s, t)
    ensures Parallel(s, t, ResolveConflict(cfg, s, src, p, now), ResolveConflict(cfg, t, src, p, now))
  {
    hide KeepBoth, NewerWinsOver, DigestOf, OpenConflict;
    if p in s.a.disk && p in s.b.disk {
      var s1, t1 := ConflictRecorded(cfg, s, p), ConflictRecorded(cfg, t, p);
      FollowNothing(s, t, s1, t1);
      match cfg.conflict {
        case Manual =>
        case NewerWins =>
          NewerAlike(cfg, s1, t1, src, p);
        case Preserve =>
          KeepBothAlike(cfg, s1, t1, src, p, now);
      }
    }
  }

  lemma PropagateFileAlike(cfg: Config, s: State, t: State, src: Side, p: Path, now: Stamp)
    requires AlikeAt(s, t, p)
    ensures Parallel(s, t, PropagateFile(cfg, s, src, p, now), PropagateFile(cfg, t, src, p, now))
  {
    hide CopyAcross, ResolveConflict, RecordPair, ContentDiffers, Recorded, Unchanged;
    assert RowsAgreeAt(s, t, p);
    assert DetectConflict(cfg, s, src, p) == DetectConflict(cfg, t, src, p);
    hide DetectConflict;
    ResolveAlike(cfg, s, t, src, p, now);
    CopyAcrossAlike(s, t, src, p);
    if CopyAcross(s, src, p).Success? {
      ParallelRecorded(cfg, CopyAcross(s, src, p).value, CopyAcross(t, src, p).value, p, [(src.Opposite(), p)]);
    }
  }

  lemma RecordSubtreeFollows(cfg: Config, s: State, t: State, p: Path)
    requires SameButRows(s, t)
    ensures SameButRows(RecordSubtree(cfg, s, p), RecordSubtree(cfg, t, p))
    ensures RowsFollow(s, t, RecordSubtree(cfg, s, p), RecordSubtree(cfg, t, p))
  {
    hide EntryFor, Excluded;
  }

  lemma PropagateDirAlike(cfg: Config, s: State, t: State, src: Side, p: Path)
    requires SameButRows(s, t)
    ensures Parallel(s, t, PropagateDir(cfg, s, src, p), PropagateDir(cfg, t, src, p))
  {
    hide CopyTree, Mkdir, HasEntries, EntryFor, RecordSubtree;
    var from, to := s.Of(src).disk, s.Of(src.Opposite()).disk;
    if p in from && from[p].Dir? {
      if !HasEntries(from, p) {
        var made := Mkdir(StatOf(from[p]).perms, to, p);
        if made.Success? {
          var s1, t1 := s.WithDisk(src.Opposite(), made.value), t.WithDisk(src.Opposite(), made.value);
          FollowNothing(s, t, s1, t1);
          ParallelRecorded(cfg, s1, t1, p, [(src.Opposite(), p)]);
        }
      } else if CopyTree(from, p, to, p).Success? {
        var d := CopyTree(from, p, to, p).value;
        var s1, t1 := s.WithDisk(src.Opposite(), d), t.WithDisk(src.Opposite(), d);
        FollowNothing(s, t, s1, t1);
        ParallelRecorded(cfg, s1, t1, p, []);
        if RecordPair(cfg, s1, p).Success? {
          RecordSubtreeFollows(cfg, RecordPair(cfg, s1, p).value, RecordPair(cfg, t1, p).value, p);
        }
      }
    }
  }

  lemma PropagateAttrsAlike(cfg: Config, s: State, t: State, src: Side, p: Path)
    requires SameButRows(s, t)
    ensures Parallel(s, t, PropagateAttrs(cfg, s, src, p), PropagateAttrs(cfg, t, src, p))
  {
    hide SyncAttrs, Recorded;
    if p in s.Of(src).disk {
      var d := SyncAttrs(s.Of(src).disk[p], s.Of(src.Opposite()).disk, p);
      var s1, t1 := s.WithDisk(src.Opposite(), d), t.WithDisk(src.Opposite(), d);
      FollowNothing(s, t, s1, t1);
      var written := Attributed(s.Of(src).disk[p], s.Of(src.Opposite()).disk, p);
      ParallelRecorded(cfg, s1, t1, p, if written then [(src.Opposite(), p)] else []);
    }
  }

  lemma {:induction false} UnsyncedAlike(cfg: Config, r: Replica, q: Replica, visits: seq<Path>)
    requires r.disk == q.disk && forall x :: x in visits ==> Sync.Find(r.rows, x) == Sync.Find(q.rows, x)
    ensures Unsynced(cfg, r, visits) == Unsynced(cfg, q, visits)
  {
    hide Excluded, Unchanged, DigestOf;
    if visits != [] {
      var n := |visits| - 1;
      assert visits == visits[..n] + [visits[n]];
      UnsyncedAlike(cfg, r, q, visits[..n]);
      assert Sync.Find(r.rows, visits[n]) == Sync.Find(q.rows, visits[n]);
    }
  }

  lemma EmptiedAlike(cfg: Config, env: Env, r: Replica, q: Replica, p: Path, to: Path)
    requires r.disk == q.disk && Unsynced(cfg, r, Visits(env, r.disk, p)) == Unsynced(cfg, q, Visits(env, r.disk, p))
    ensures SetsAside(cfg, env, r, p) == SetsAside(cfg, env, q, p)
    ensures EmptiedDisk(cfg, env, r, p, to) == EmptiedDisk(cfg, env, q, p, to)
  {
    hide Unsynced, MoveAside, RemoveAll, Visits;
  }

  lemma UnsyncedSame(cfg: Config, env: Env, s: State, t: State, side: Side, p: Path)
    requires AlikeAt(s, t, p)
    ensures var r, q := s.Of(side), t.Of(side);
      r.disk == q.disk && Unsynced(cfg, r, Visits(env, r.disk, p)) == Unsynced(cfg, q, Visits(env, r.disk, p))
  {
    hide Unsynced, Visits, AtOrUnder;
    var r, q := s.Of(side), t.Of(side);
    forall x | x in Visits(env, r.disk, p) ensures Sync.Find(r.rows, x) == Sync.Find(q.rows, x) {
      assert RowsAgreeAt(s, t, x);
    }
    UnsyncedAlike(cfg, r, q, Visits(env, r.disk, p));
  }

  lemma RemoveDirAlike(cfg: Config, env: Env, s: State, t: State, side: Side, p: Path)
    requires AlikeAt(s, t, p)
    ensures Parallel(s, t, RemoveDir(cfg, env, s, side, p), RemoveDir(cfg, env, t, side, p))
  {
    hide PreservedDirName, Unsynced, OpenConflict, CloseConflict, Visits, EmptiedDisk, SetsAside,
      RowsFollow, RowsAgreeAt;
    UnsyncedSame(cfg, env, s, t, side, p);
    EmptiedAlike(cfg, env, s.Of(side), t.Of(side), p, PreservedDirName(p, side, env.clock(p)));
    FollowNothing(s, t, RemoveDir(cfg, env, s, side, p).state, RemoveDir(cfg, env, t, side, p).state);
  }

  lemma ForgetFollows(s: State, t: State, p: Path)
    requires SameButRows(s, t)
    ensures SameButRows(ForgetSubtree(s, p), ForgetSubtree(t, p))
    ensures RowsFollow(s, t, ForgetSubtree(s, p), ForgetSubtree(t, p))
  {
    hide CaseUnder;
  }

  lemma DeleteAlike(cfg: Config, env: Env, s: State, t: State, present: Side, p: Path, isDir: bool)
    requires AlikeAt(s, t, p)
    ensures Parallel(s, t, DeleteOneSided(cfg, env, s, present, p, isDir), DeleteOneSided(cfg, env, t, present, p,
      isDir))
  {
    hide RemoveDir, Remove, ForgetSubtree;
    if isDir {
      RemoveDirAlike(cfg, env, s, t, present, p);
      ForgetFollows(RemoveDir(cfg, env, s, present, p).state, RemoveDir(cfg, env, t, present, p).state, p);
    } else if Remove(s.Of(present).disk, p, false).Success? {
      var d := Remove(s.Of(present).disk, p, false).value;
      FollowNothing(s, t, s.WithDisk(present, d), t.WithDisk(present, d));
      ForgetFollows(s.WithDisk(present, d), t.WithDisk(present, d), p);
    }
  }

  lemma OneSidedAlike(cfg: Config, env: Env, s: State, t: State, present: Side, p: Path, isDir: bool)
    requires AlikeAt(s, t, p)
    ensures Parallel(s, t, ReconcileOneSided(cfg, env, s, present, p, isDir), ReconcileOneSided(cfg, env, t, present,
      p, isDir))
  {
    hide DeleteOneSided, PropagateFile, PropagateDir, Parallel;
    assert RowsAgreeAt(s, t, p);
    DeleteAlike(cfg, env, s, t, present, p, isDir);
    if isDir {
      PropagateDirAlike(cfg, s, t, present, p);
    } else {
      PropagateFileAlike(cfg, s, t, present, p, env.clock(p));
    }
  }

  lemma DifferingAlike(cfg: Config, env: Env, s: State, t: State, p: Path, stA: Stat, stB: Stat, v: Verdict)
    requires AlikeAt(s, t, p)
    ensures Parallel(s, t, ReconcileDiffering(cfg, env, s, p, stA, stB, v), ReconcileDiffering(cfg, env, t, p, stA,
      stB, v))
  {
    hide PropagateFile, ResolveConflict, Parallel, SideChanged;
    assert RowsAgreeAt(s, t, p);
    assert OriginOf(s, p, v, stA, stB) == OriginOf(t, p, v, stA, stB);
    hide OriginOf;
    PropagateFileAlike(cfg, s, t, SideA, p, env.clock(p));
    PropagateFileAlike(cfg, s, t, SideB, p, env.clock(p));
    ResolveAlike(cfg, s, t, NewerSide(stA, stB), p, env.clock(p));
  }

  lemma AttrsAlike(cfg: Config, s: State, t: State, p: Path, stA: Stat, stB: Stat)
    requires AlikeAt(s, t, p)
    ensures Parallel(s, t, ReconcileAttrs(cfg, s, p, stA, stB), ReconcileAttrs(cfg, t, p, stA, stB))
  {
    hide PropagateAttrs, Parallel, AttrsDiverged;
    assert RowsAgreeAt(s, t, p);
    assert AttrOrigin(s, p, stA, stB) == AttrOrigin(t, p, stA, stB);
    PropagateAttrsAlike(cfg, s, t, AttrOrigin(s, p, stA, stB), p);
  }

  lemma FilesAlike(cfg: Config, env: Env, s: State, t: State, p: Path, stA: Stat, stB: Stat, v: Verdict)
    requires AlikeAt(s, t, p)
    ensures Parallel(s, t, ReconcileFiles(cfg, env, s, p, stA, stB, v), ReconcileFiles(cfg, env, t, p, stA, stB, v))
  {
    hide ReconcileDiffering, ReconcileAttrs, Parallel, AttrsDiverged, Recorded;
    DifferingAlike(cfg, env, s, t, p, stA, stB, v);
    AttrsAlike(cfg, s, t, p, stA, stB);
    ParallelRecorded(cfg, s, t, p, []);
  }

  /** The turn at p comes to the same on both, as far as the table at and below p is the same. */
  lemma TurnAlike(cfg: Config, env: Env, s: State, t: State, p: Path)
    requires AlikeAt(s, t, p)
    ensures var o, o' := ActNow(cfg, env, s, p), ActNow(cfg, env, t, p);
      Parallel(s, t, o.outcome, o'.outcome) && o.oneSidedDir == o'.oneSidedDir && o.typeClash == o'.typeClash
  {
    hide ReconcileFiles, ReconcileAttrs, ReconcileOneSided, AttrsDiverged, OpenConflict, Judge, CompareNow;
    FollowNothing(s, t, s, t);
    if p in s.a.disk && p in s.b.disk {
      var a, b := s.a.disk[p], s.b.disk[p];
      FilesAlike(cfg, env, s, t, p, StatOf(a), StatOf(b), Judge(cfg, a, b));
      AttrsAlike(cfg, s, t, p, StatOf(a), StatOf(b));
      var s1 := s.(conflicts := OpenConflict(s.conflicts, p, ZERO, ZERO));
      var t1 := t.(conflicts := OpenConflict(t.conflicts, p, ZERO, ZERO));
      FollowNothing(s, t, s1, t1);
      CarriesOrNot(a);
      CarriesOrNot(b);
    } else if p in s.a.disk {
      OneSidedAlike(cfg, env, s, t, SideA, p, StatOf(s.a.disk[p]).isDir);
    } else if p in s.b.disk {
      OneSidedAlike(cfg, env, s, t, SideB, p, StatOf(s.b.disk[p]).isDir);
    }
  }

  lemma CarriesOrNot(n: Node)
    ensures Carries(n) <==> StatOf(n).kind != SpecialKind && !StatOf(n).isDir
  {
  }

  // ------------------------------------------------ turns below a settled directory

  /** Below a directory that was settled as a whole, as one side lacked it. */
  ghost predicate BelowLone(s0: State, handled: seq<Path>, x: Path) {
    exists h :: h in handled && LoneSide(s0, h).Some? && Under(x, h)
  }

  predicate CarriesAt(s: State, x: Path) {
    x in s.a.disk && Carries(s.a.disk[x])
  }

  /** The table has the node at x for both sides. */
  predicate PairRecorded(cfg: Config, s: State, x: Path) {
    x in s.a.disk && Sync.Find(s.a.rows, x) == Sync.Find(s.b.rows, x) == Some(EntryFor(cfg, s.a.disk[x]))
  }

  lemma EqualNodesMatch(cfg: Config, n: Node)
    requires Carries(n)
    ensures !Judge(cfg, n, n).differs && !AttrsDiverged(StatOf(n), StatOf(n))
  {
    EqualContentNeverDiffers(n, n, cfg.hashMax, cfg.hashSample);
  }

  /** Looking again where both sides hold the same finds nothing to do but to record a file or link. */
  lemma QuietTurn(cfg: Config, env: Env, s: State, p: Path)
    requires EqualAt(s, p)
    ensures var acted := ActNow(cfg, env, s, p); var t := acted.outcome.state;
      && !acted.typeClash && SameButRows(s, t)
      && (forall x :: x != p ==> RowsAgreeAt(s, t, x))
      && (if CarriesAt(s, p) then PairRecorded(cfg, t, p) else RowsAgreeAt(s, t, p))
  {
    hide Judge, ReconcileDiffering, ReconcileAttrs, EntryFor, CompareNow, AttrsDiverged;
    assert At(s.a.disk, p) == At(s.b.disk, p);
    if p in s.a.disk {
      var n := s.a.disk[p];
      CarriesOrNot(n);
      if Carries(n) { EqualNodesMatch(cfg, n); } else { EqualDirsMatch(n); }
    }
  }

  lemma EqualDirsMatch(n: Node)
    ensures !AttrsDiverged(StatOf(n), StatOf(n))
  {
  }

  // ----------------------------------------------------- the two passes side by side

  ghost predicate SameClashes(s0: State, stale: seq<Path>, live: seq<Path>) {
    forall h :: h in live <==> h in stale && ClashAt(s0, h)
  }

  /** A file or link below a settled directory that only the fresh pass has looked at again. */
  ghost predicate LookedAtAgain(s0: State, done: seq<Path>, stale: Pass, x: Path) {
    BelowLone(s0, stale.handled, x) && x in done && CarriesAt(stale.state, x)
  }

  ghost predicate RowsInStep(s0: State, done: seq<Path>, stale: Pass, live: Pass) {
    forall x :: !LookedAtAgain(s0, done, stale, x) ==> RowsAgreeAt(stale.state, live.state, x)
  }

  ghost predicate EqualBelow(cfg: Config, s0: State, stale: Pass) {
    forall x :: Visible(cfg, x) && BelowLone(s0, stale.handled, x) ==> EqualAt(stale.state, x)
  }

  ghost predicate InStep(cfg: Config, s0: State, done: seq<Path>, stale: Pass, live: Pass) {
    && SameButRows(stale.state, live.state)
    && SameClashes(s0, stale.handled, live.handled)
    && RowsInStep(s0, done, stale, live)
    && EqualBelow(cfg, s0, stale)
  }

  lemma SettledEitherWay(s0: State, done: seq<Path>, stale: seq<Path>, live: seq<Path>, x: Path)
    requires SameClashes(s0, stale, live) && HandledRight(s0, done, stale)
    ensures UnderAny(x, stale) <==> UnderAny(x, live) || BelowLone(s0, stale, x)
  {
    hide LoneSide, ClashAt;
    if UnderAny(x, stale) {
      var h :| h in stale && Under(x, h);
      assert LoneSide(s0, h).Some? || ClashAt(s0, h);
      assert ClashAt(s0, h) ==> h in live;
    }
    if UnderAny(x, live) {
      var h :| h in live && Under(x, h);
      assert h in stale;
    }
    if BelowLone(s0, stale, x) {
      var h :| h in stale && LoneSide(s0, h).Some? && Under(x, h);
      assert h in stale && Under(x, h);
    }
  }

  /** A turn the stale pass skips below a settled directory, while the fresh one looks again. */
  lemma SkippedBelowLone(cfg: Config, env: Env, s0: State, done: seq<Path>, stale: Pass, live: Pass, p: Path)
    requires InStep(cfg, s0, done, stale, live) && BelowLone(s0, stale.handled, p) && p !in done
    requires !UnderAny(p, live.handled) && Visible(cfg, p)
    ensures InStep(cfg, s0, done + [p], stale, FreshStep(cfg, env, live, p))
    ensures CarriesAt(stale.state, p) ==> PairRecorded(cfg, FreshStep(cfg, env, live, p).state, p)
    ensures forall x :: x != p ==> RowsAgreeAt(live.state, FreshStep(cfg, env, live, p).state, x)
  {
    hide ActNow, Visible, UnderAny, SameClashes, BelowLone, RowsAgreeAt, PairRecorded;
    QuietTurn(cfg, env, live.state, p);
    var t := ActNow(cfg, env, live.state, p).outcome.state;
    forall x | !LookedAtAgain(s0, done + [p], stale, x) ensures RowsAgreeAt(stale.state, t, x) {
      assert p in done + [p] && (x in done ==> x in done + [p]);
      assert RowsAgreeAt(live.state, t, x);
      RowsAgreeChain(stale.state, live.state, t, x);
    }
  }

  lemma RowsAgreeChain(s: State, t: State, u: State, x: Path)
    requires RowsAgreeAt(s, t, x) && RowsAgreeAt(t, u, x)
    ensures RowsAgreeAt(s, u, x)
  {
  }

  /** At and below the path of a turn nothing has been settled, so both passes see the same table there. */
  lemma AlikeAtTurn(cfg: Config, s0: State, done: seq<Path>, stale: Pass, live: Pass, p: Path)
    requires InStep(cfg, s0, done, stale, live) && HandledRight(s0, done, stale.handled) && Next(cfg, s0, done, p)
    requires !UnderAny(p, stale.handled)
    ensures AlikeAt(stale.state, live.state, p)
  {
    hide Visible, RowsAgreeAt, EqualBelow, LoneSide, ClashAt, Excluded, BelowLone;
    forall x | AtOrUnder(x, p) ensures RowsAgreeAt(stale.state, live.state, x) {
      NotBelowLone(cfg, s0, done, stale.handled, p, x);
    }
  }

  lemma NotBelowLone(cfg: Config, s0: State, done: seq<Path>, handled: seq<Path>, p: Path, x: Path)
    requires HandledRight(s0, done, handled) && Next(cfg, s0, done, p) && !UnderAny(p, handled) && AtOrUnder(x, p)
    ensures !BelowLone(s0, handled, x)
  {
    hide Visible, LoneSide, ClashAt;
    forall h | h in handled ensures !Under(x, h) {
      assert h in done && !Under(p, h) && !Under(h, p) && h != p;
      if Under(x, h) { AboveComparable(x, p, h); }
    }
  }

  /** What a turn below no settled directory adds: the directory it settles, if one side lacked it. */
  lemma BelowLoneGrows(s0: State, handled: seq<Path>, p: Path, x: Path)
    requires BelowLone(s0, Grown(s0, handled, p), x)
    ensures BelowLone(s0, handled, x) || (LoneSide(s0, p).Some? && Under(x, p))
  {
    hide LoneSide, ClashAt;
    var h :| h in Grown(s0, handled, p) && LoneSide(s0, h).Some? && Under(x, h);
    assert h in handled || h == p;
  }

  lemma BelowLoneKept(s0: State, handled: seq<Path>, p: Path, x: Path)
    requires BelowLone(s0, handled, x)
    ensures BelowLone(s0, Grown(s0, handled, p), x)
  {
    hide LoneSide, ClashAt;
    var h :| h in handled && LoneSide(s0, h).Some? && Under(x, h);
    assert h in Grown(s0, handled, p);
  }

  /** What lies below an already settled directory is untouched by a later turn. */
  lemma BelowLoneUntouched(cfg: Config, env: Env, s0: State, done: seq<Path>, stale: Pass, t: State, p: Path, x: Path)
    requires SavedExcluded(cfg) && HandledRight(s0, done, stale.handled)
    requires Next(cfg, s0, done, p) && !UnderAny(p, stale.handled)
    requires Turn(cfg, env, s0, stale.state, t, p, LoneSide(s0, p).Some?)
    requires Visible(cfg, x) && BelowLone(s0, stale.handled, x)
    ensures !AtOrUnder(x, p)
    ensures At(t.a.disk, x) == At(stale.state.a.disk, x) && At(t.b.disk, x) == At(stale.state.b.disk, x)
  {
    hide Excluded, Clean, LoneSide, ClashAt, Frame, RowsElsewhereKept, BothDirs, BelowLone;
    if AtOrUnder(x, p) { NotBelowLone(cfg, s0, done, stale.handled, p, x); }
    KeptByTurn(cfg, env, s0, stale.state, t, p, x);
  }

  lemma LookedAtAgainStays(cfg: Config, env: Env, s0: State, done: seq<Path>, stale: Pass, t: State, p: Path, x: Path)
    requires SavedExcluded(cfg) && HandledRight(s0, done, stale.handled)
    requires Next(cfg, s0, done, p) && !UnderAny(p, stale.handled)
    requires Turn(cfg, env, s0, stale.state, t, p, LoneSide(s0, p).Some?)
    requires LookedAtAgain(s0, done, stale, x)
    ensures LookedAtAgain(s0, done + [p], Pass(t, Grown(s0, stale.handled, p)), x)
  {
    hide BelowLone, Grown, Turn, HandledRight, UnderAny, Clean, Excluded;
    assert x in done + [p];
    BelowLoneKept(s0, stale.handled, p, x);
    BelowLoneUntouched(cfg, env, s0, done, stale, t, p, x);
  }

  lemma RowsStillInStep(cfg: Config, env: Env, s0: State, done: seq<Path>, stale: Pass, live: Pass, s': State,
        t': State, p: Path)
    requires SavedExcluded(cfg) && HandledRight(s0, done, stale.handled)
    requires Next(cfg, s0, done, p) && !UnderAny(p, stale.handled)
    requires Turn(cfg, env, s0, stale.state, s', p, LoneSide(s0, p).Some?)
    requires RowsInStep(s0, done, stale, live) && RowsFollow(stale.state, live.state, s', t')
    ensures forall x :: !LookedAtAgain(s0, done + [p], Pass(s', Grown(s0, stale.handled, p)), x) ==>
      RowsAgreeAt(s', t', x)
  {
    hide BelowLone, RowsAgreeAt, Grown, Turn, HandledRight, UnderAny, Visible;
    forall x | !LookedAtAgain(s0, done + [p], Pass(s', Grown(s0, stale.handled, p)), x) ensures RowsAgreeAt(s', t', x) {
      if LookedAtAgain(s0, done, stale, x) { LookedAtAgainStays(cfg, env, s0, done, stale, s', p, x); }
      assert RowsAgreeAt(stale.state, live.state, x);
    }
  }

  lemma EqualWhenSettled(cfg: Config, env: Env, s: State, p: Path, x: Path)
    requires Ready(cfg, env, s, p) && LoneSide(s, p).Some? && Under(x, p)
    ensures EqualAt(ActNow(cfg, env, s, p).outcome.state, x)
  {
    hide Visible, NamesFree, WalkFaithful, Tree, HasParents, MeansDeleted, EntryFor, Excluded, ReconcileOneSided, Frame;
    LoneDirReconciled(cfg, env, s, LoneSide(s, p).value, p);
  }

  lemma EqualStep(cfg: Config, env: Env, s0: State, done: seq<Path>, stale: Pass, t: State, p: Path)
    requires SavedExcluded(cfg) && HandledRight(s0, done, stale.handled)
    requires Next(cfg, s0, done, p) && !UnderAny(p, stale.handled)
    requires Turn(cfg, env, s0, stale.state, t, p, LoneSide(s0, p).Some?)
    requires Ready(cfg, env, stale.state, p) && t == ActNow(cfg, env, stale.state, p).outcome.state
    requires EqualBelow(cfg, s0, stale)
    ensures EqualBelow(cfg, s0, Pass(t, Grown(s0, stale.handled, p)))
  {
    hide Frame, Ready, ActNow, BelowLone, Grown, HandledRight, Next, UnderAny, Clean, Excluded, BothDirs,
      RowsElsewhereKept;
    forall x | Visible(cfg, x) && BelowLone(s0, Grown(s0, stale.handled, p), x) ensures EqualAt(t, x) {
      BelowLoneGrows(s0, stale.handled, p, x);
      if BelowLone(s0, stale.handled, x) {
        BelowLoneUntouched(cfg, env, s0, done, stale, t, p, x);
      } else {
        EqualWhenSettled(cfg, env, stale.state, p, x);
      }
    }
  }

  lemma ClashesStep(s0: State, stale: seq<Path>, live: seq<Path>, p: Path)
    requires SameClashes(s0, stale, live)
    ensures SameClashes(s0, Grown(s0, stale, p), if ClashAt(s0, p) then live + [p] else live)
  {
    hide LoneSide, ClashAt;
    assert p in stale + [p] && p in live + [p];
  }

  lemma ClashSeen(s0: State, cfg: Config, env: Env, s: State, p: Path)
    requires At(s.a.disk, p) == At(s0.a.disk, p) && At(s.b.disk, p) == At(s0.b.disk, p) && Ready(cfg, env, s, p)
    ensures ActNow(cfg, env, s, p).typeClash == ClashAt(s0, p)
  {
    hide Ready, ActNow, Frame, RowsElsewhereKept, NothingNew;
    SameClash(s0, s, p);
    TurnIsOk(cfg, env, s, p);
  }

  lemma BothTake(cfg: Config, env: Env, s0: State, done: seq<Path>, stale: Pass, live: Pass, after: Pass, p: Path)
    requires SavedExcluded(cfg) && PassInv(cfg, env, s0, done, stale) && Next(cfg, s0, done, p)
    requires InStep(cfg, s0, done, stale, live) && !UnderAny(p, stale.handled)
    requires Turn(cfg, env, s0, stale.state, after.state, p, LoneSide(s0, p).Some?) && Ready(cfg, env, stale.state, p)
    requires after == Pass(ActNow(cfg, env, stale.state, p).outcome.state, Grown(s0, stale.handled, p))
    ensures InStep(cfg, s0, done + [p], after, FreshStep(cfg, env, live, p))
    ensures FreshStep(cfg, env, live, p).state == ActNow(cfg, env, live.state, p).outcome.state
    ensures AlikeAt(stale.state, live.state, p)
  {
    hide Ready, ActNow, BelowLone, Grown, Next, UnderAny, RowsAgreeAt, AlikeAt, RowsFollow, ClashAt, SameClashes,
      EqualBelow, HandledRight, DirsRemain, PendingUntouched, NamesRemainFree, RowsRemain, ConflictsRemain,
      Frame, BothDirs, RowsElsewhereKept, LookedAtAgain;
    SettledEitherWay(s0, done, stale.handled, live.handled, p);
    AlikeAtTurn(cfg, s0, done, stale, live, p);
    TurnAlike(cfg, env, stale.state, live.state, p);
    RowsStillInStep(cfg, env, s0, done, stale, live, after.state, ActNow(cfg, env, live.state, p).outcome.state, p);
    EqualStep(cfg, env, s0, done, stale, after.state, p);
    ClashSeen(s0, cfg, env, stale.state, p);
    ClashesStep(s0, stale.handled, live.handled, p);
  }

  /** A turn both skip, below a directory that faces a file. */
  lemma BothSkip(cfg: Config, s0: State, done: seq<Path>, stale: Pass, live: Pass, p: Path)
    requires InStep(cfg, s0, done, stale, live) && p !in done
    ensures InStep(cfg, s0, done + [p], stale, live)
  {
    hide BelowLone, RowsAgreeAt, EqualBelow, SameClashes;
    forall x | !LookedAtAgain(s0, done + [p], stale, x) ensures RowsAgreeAt(stale.state, live.state, x) {
      assert x in done ==> x in done + [p];
    }
  }

  lemma InStepStep(cfg: Config, env: Env, s0: State, order: seq<Path>, n: nat, live: Pass)
    requires Start(cfg, env, s0) && UnionOrder(cfg, s0, order) && n < |order|
    requires InStep(cfg, s0, order[..n], PassAt(cfg, env, s0, order, n), live)
    ensures InStep(cfg, s0, order[..n + 1], PassAt(cfg, env, s0, order, n + 1), FreshStep(cfg, env, live, order[n]))
  {
    hide UnionOrder, PassAt, Turn, Ready, ActNow, InStep, UnderAny, Grown, BelowLone, HandledRight,
      DirsRemain, PendingUntouched, NamesRemainFree, RowsRemain, ConflictsRemain, Visible, Tree, NamesFree,
      WalkFaithful, NoSpecialInTheWay, SameClashes;
    TurnAt(cfg, env, s0, order, n);
    var stale, after, p := PassAt(cfg, env, s0, order, n), PassAt(cfg, env, s0, order, n + 1), order[n];
    assert order[..n + 1] == order[..n] + [p];
    StepFacts(cfg, s0, order[..n], stale, live);
    SettledEitherWay(s0, order[..n], stale.handled, live.handled, p);
    if !UnderAny(p, stale.handled) {
      BothTake(cfg, env, s0, order[..n], stale, live, after, p);
    } else if !UnderAny(p, live.handled) {
      SkippedBelowLone(cfg, env, s0, order[..n], stale, live, p);
    } else {
      BothSkip(cfg, s0, order[..n], stale, live, p);
    }
  }

  lemma StepFacts(cfg: Config, s0: State, done: seq<Path>, stale: Pass, live: Pass)
    requires InStep(cfg, s0, done, stale, live)
    ensures SameClashes(s0, stale.handled, live.handled) && SameButRows(stale.state, live.state)
    ensures RowsInStep(s0, done, stale, live)
  {
  }

  /** The fresh pass before turn n. */
  function LiveAt(cfg: Config, env: Env, s0: State, order: seq<Path>, n: nat): Pass
    requires n <= |order|
  {
    FreshPass(cfg, env, s0, order[..n])
  }

  lemma LiveAtStep(cfg: Config, env: Env, s0: State, order: seq<Path>, n: nat)
    requires n < |order|
    ensures LiveAt(cfg, env, s0, order, n + 1) == FreshStep(cfg, env, LiveAt(cfg, env, s0, order, n), order[n])
  {
    hide FreshStep;
    assert order[..n + 1][..n] == order[..n];
  }

  lemma {:induction false} InStepHolds(cfg: Config, env: Env, s0: State, order: seq<Path>, n: nat)
    requires Start(cfg, env, s0) && UnionOrder(cfg, s0, order) && n <= |order|
    ensures InStep(cfg, s0, order[..n], PassAt(cfg, env, s0, order, n), LiveAt(cfg, env, s0, order, n))
  {
    hide Start, UnionOrder, PassAt, LiveAt, InStep, FreshStep;
    if n == 0 {
      InStepAtFirst(cfg, env, s0, order);
    } else {
      InStepHolds(cfg, env, s0, order, n - 1);
      InStepStep(cfg, env, s0, order, n - 1, LiveAt(cfg, env, s0, order, n - 1));
      LiveAtStep(cfg, env, s0, order, n - 1);
    }
  }

  lemma InStepAtFirst(cfg: Config, env: Env, s0: State, order: seq<Path>)
    ensures InStep(cfg, s0, order[..0], PassAt(cfg, env, s0, order, 0), LiveAt(cfg, env, s0, order, 0))
  {
    hide Take, Visible, EqualAt;
    assert order[..0] == [];
  }
}
