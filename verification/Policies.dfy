// What the policies decide over a whole pass, and what events and conflicts leave in the tables
// (internal/engine/resync.go, conflict.go, engine.go).

module Policies {
  import opened Actions
  import opened Digests
  import opened Disks
  import opened Events
  import opened Exclude
  import opened Frames
  import opened Locality
  import opened Names
  import opened Nodes
  import opened Options
  import opened Passes
  import opened Paths
  import opened Reconciled
  import opened Removal
  import opened Settings
  import opened Store
  import opened Sync
  import opened Twins
  import opened Versions

  // ---------------------------------------------------------- a file on one side only

  lemma LoneFileTurn(cfg: Config, env: Env, s: State, src: Side, p: Path)
    requires Ready(cfg, env, s, p) && FilesAt(s, p) && p in s.Of(src).disk && p !in s.Of(src.Opposite()).disk
    ensures var t := ActNow(cfg, env, s, p).outcome.state;
      At(t.a.disk, p) == At(t.b.disk, p) == if MeansDeleted(cfg, s, src, p) then None else Some(s.Of(src).disk[p])
  {
    hide DeleteOneSided, PropagateFile, Frame, HasParents, Tree, Excluded, Clean, NamesFree, WalkFaithful,
      EntryFor, DetectConflict;
    assert ActNow(cfg, env, s, p).outcome == ReconcileOneSided(cfg, env, s, src, p, false);
    if MeansDeleted(cfg, s, src, p) {
      FileDeleted(cfg, env, s, src, p);
    } else {
      PropagateFileResult(cfg, s, src, p, env.clock(p));
      NoConflictWithNothing(cfg, s, src, p);
    }
  }

  lemma NoConflictWithNothing(cfg: Config, s: State, src: Side, p: Path)
    requires p !in s.Of(src.Opposite()).disk
    ensures DetectConflict(cfg, s, src, p) == Success(false)
  {
  }

  /**
   * A file or link that only one side has, in a place both sides have, is at the end of the pass on both
   * sides or on neither. It is gone when the policy prefers the other side, or under union when the table
   * knows it there and no path that covers it by letter case is removed before its turn.
   */
  lemma LoneFileDecided(cfg: Config, env: Env, s0: State, order: seq<Path>, p: Path, src: Side)
    requires Start(cfg, env, s0) && UnionOrder(cfg, s0, order) && Visible(cfg, p)
    requires FilesAt(s0, p) && p in s0.Of(src).disk && p !in s0.Of(src.Opposite()).disk
    requires HasParents(s0.Of(src.Opposite()).disk, p)
    ensures var final := Reconcile(cfg, env, s0, order);
      At(final.a.disk, p) == At(final.b.disk, p) ==
        if MeansDeleted(cfg, s0, src, p) && (cfg.first == Union ==> Untwinned(cfg, s0, order, p)) then None
        else Some(s0.Of(src).disk[p])
  {
    hide TopDown, NoDuplicates, Excluded, Clean, ActNow, PassAt, Reconcile, Ready, Untwinned, Twinless, NamesFree,
      WalkFaithful, NoSpecialInTheWay, Tree, HasParents;
    assert p in order;
    var k :| 0 <= k < |order| && order[k] == p;
    TreeHasParents(s0.Of(src).disk, p);
    PlacedAtTurn(cfg, env, s0, order, k);
    var s := PassAt(cfg, env, s0, order, k).state;
    SameLoneFile(s0, s, src, p);
    LoneFileTurn(cfg, env, s, src, p);
    KeptAfterTurn(cfg, env, s0, order, k, src);
  }

  lemma SameLoneFile(s0: State, s: State, src: Side, p: Path)
    requires At(s.a.disk, p) == At(s0.a.disk, p) && At(s.b.disk, p) == At(s0.b.disk, p)
    requires FilesAt(s0, p) && p in s0.Of(src).disk && p !in s0.Of(src.Opposite()).disk
    ensures FilesAt(s, p) && p in s.Of(src).disk && p !in s.Of(src.Opposite()).disk
    ensures s.Of(src).disk[p] == s0.Of(src).disk[p]
  {
  }

  // ------------------------------------------------------------------ no single origin

  /** The side with the later mtime; A when they are equal. */
  predicate Newer(s: State, src: Side, p: Path)
    requires p in s.a.disk && p in s.b.disk
  {
    var mine, other := StatOf(s.Of(src).disk[p]).mtime, StatOf(s.Of(src.Opposite()).disk[p]).mtime;
    mine > other || (mine == other && src == SideA)
  }

  /** How the conflict list remembers a conflict, by policy. */
  function Resolved(cfg: Config, p: Path, loser: Side, at: Stamp): Option<string> {
    match cfg.conflict
    case Manual => None
    case NewerWins => Some("newer-wins")
    case Preserve => Some("preserve:" + ConflictName(p, loser, at))
  }

  lemma CopiesKeepConflicts(s: State, side: Side, p: Path, name: Path)
    ensures CopyAcross(s, side, p).Success? ==> CopyAcross(s, side, p).value.conflicts == s.conflicts
    ensures CopyAside(s, side, p, name).Success? ==> CopyAside(s, side, p, name).value.conflicts == s.conflicts
  {
    hide CopyFile, Base;
  }

  lemma RecordedKeepsConflicts(cfg: Config, s: State, p: Path, writes: seq<(Side, Path)>)
    ensures Recorded(cfg, s, p, writes).state.conflicts == s.conflicts
  {
    hide EntryFor;
  }

  /** The row opened for a conflict has the digest of A before that of B, and is closed unless a human decides. */
  lemma ConflictRowSays(cfg: Config, s: State, src: Side, p: Path, at: Stamp)
    requires p in s.a.disk && p in s.b.disk && ResolveConflict(cfg, s, src, p, at).error.None?
    ensures Sync.Find(ResolveConflict(cfg, s, src, p, at).state.conflicts, p) == Some(Conflict(
              DigestText(DigestOf(cfg, s.a.disk[p])), DigestText(DigestOf(cfg, s.b.disk[p])), Resolved(cfg, p, src.Opposite(), at)))
  {
    hide CopyAcross, CopyAside, ConflictName, DigestOf, DigestText, Recorded;
    var noted, dst := ConflictRecorded(cfg, s, p), src.Opposite();
    var name := ConflictName(p, dst, at);
    match cfg.conflict {
      case Manual =>
      case NewerWins =>
        var winner := ConflictWinner(cfg, s, src, p);
        CopiesKeepConflicts(noted, winner, p, name);
        RecordedKeepsConflicts(cfg, ConflictClosed(CopyAcross(noted, winner, p).value, p, "newer-wins"), p,
          [(winner.Opposite(), p)]);
      case Preserve =>
        CopiesKeepConflicts(noted, dst, p, name);
        var saved := CopyAside(noted, dst, p, name).value;
        CopiesKeepConflicts(saved, src, p, name);
        RecordedKeepsConflicts(cfg, ConflictClosed(CopyAcross(saved, src, p).value, p, "preserve:" + name), p, [(dst,
          name), (dst, p)]);
    }
  }

  lemma UndecidedTurn(cfg: Config, env: Env, s: State, p: Path, src: Side)
    requires TwoFiles(s, p, env.clock(p)) && cfg.first == Union && Newer(s, src, p)
    requires var a, b := s.a.disk[p], s.b.disk[p]; var v := Judge(cfg, a, b);
      v.differs && OriginOf(s, p, v, StatOf(a), StatOf(b)) == None
    ensures FilesNow(cfg, env, s, p) == ResolveConflict(cfg, s, src, p, env.clock(p))
    ensures cfg.conflict != Manual ==> ConflictWinner(cfg, s, src, p) == src
  {
    hide ResolveConflict, OriginOf, Judge, NamesFree, Tree, HasParents;
  }

  lemma StillUndecided(cfg: Config, s0: State, s: State, done: seq<Path>, p: Path, v: Verdict, stA: Stat, stB: Stat)
    requires RowsLeft(cfg, s0, s, done, p)
    requires OriginOf(s0, p, v, stA, stB) == None || !Twinless(cfg, s0, done, p)
    ensures OriginOf(s, p, v, stA, stB) == None
  {
    hide SideChanged, Twinless;
  }

  /** A conflict settled in favour of one side, as policy has it, with the row it leaves. */
  ghost predicate ConflictSettled(cfg: Config, s0: State, final: State, src: Side, p: Path, at: Stamp) {
    && p in s0.a.disk && p in s0.b.disk
    && (cfg.conflict == Manual ==> At(final.a.disk, p) == At(s0.a.disk, p) && At(final.b.disk, p) == At(s0.b.disk, p))
    && (cfg.conflict != Manual ==> At(final.a.disk, p) == At(final.b.disk, p) == Some(s0.Of(src).disk[p]))
    && (cfg.conflict == Preserve ==> SavedCopy(s0, final, src.Opposite(), p, at))
    && Sync.Find(final.conflicts, p) == Some(Conflict(
         DigestText(DigestOf(cfg, s0.a.disk[p])), DigestText(DigestOf(cfg, s0.b.disk[p])), Resolved(cfg, p, src.Opposite(), at)))
  }

  lemma SettledAtTurn(cfg: Config, env: Env, s0: State, order: seq<Path>, k: nat, src: Side)
    requires FacedAt(cfg, env, s0, order, k) && cfg.first == Union && Newer(s0, src, order[k])
    requires var s, p := PassAt(cfg, env, s0, order, k).state, order[k];
      var a, b := s0.a.disk[p], s0.b.disk[p]; var v := Judge(cfg, a, b);
      v.differs && OriginOf(s, p, v, StatOf(a), StatOf(b)) == None
    ensures ConflictSettled(cfg, s0, Reconcile(cfg, env, s0, order), src, order[k], env.clock(order[k]))
  {
    hide Start, UnionOrder, Excluded, Clean, PassAt, Reconcile, Ready, OriginOf, Judge, ResolveConflict, FilesNow,
      Untwinned, Twinless, RowsLeft, ConflictName, DigestOf, DigestText, TwoFiles, Copied, Resolved, Frame;
    var p, at := order[k], env.clock(order[k]);
    FacedTurn(cfg, env, s0, order, k);
    var s := PassAt(cfg, env, s0, order, k).state;
    UndecidedTurn(cfg, env, s, p, src);
    ResolveResult(cfg, s, src, p, at);
    TwoNodes(s, p, at);
    ConflictRowSays(cfg, s, src, p, at);
    if cfg.conflict != Manual { CopiedNodes(cfg, s, ResolveConflict(cfg, s, src, p, at), src, p, at); }
    KeptAfterTurn(cfg, env, s0, order, k, src.Opposite());
    AfterwardsNotInOrder(cfg, env, s0, order, k);
    ConflictKeptFrom(cfg, env, s0, order, k + 1, |order|, p);
    PassAtEnd(cfg, env, s0, order);
  }

  /**
   * Contents differ, and the table names no single origin: it never did, or a path that covers p by
   * letter case was removed before the turn of p and took the rows along. Under union the newer version,
   * that of A when mtimes are equal, ends on both sides, the other one beside it under preserve; manual
   * leaves both as they are. The conflict list says so.
   */
  lemma UndecidedFavoursNewer(cfg: Config, env: Env, s0: State, order: seq<Path>, p: Path, src: Side)
    requires Start(cfg, env, s0) && UnionOrder(cfg, s0, order) && cfg.first == Union
    requires Visible(cfg, p) && FilesAt(s0, p) && p in s0.a.disk && p in s0.b.disk && Newer(s0, src, p)
    requires var a, b := s0.a.disk[p], s0.b.disk[p]; var v := Judge(cfg, a, b);
      v.differs && (OriginOf(s0, p, v, StatOf(a), StatOf(b)) == None || !Untwinned(cfg, s0, order, p))
    ensures ConflictSettled(cfg, s0, Reconcile(cfg, env, s0, order), src, p, env.clock(p))
  {
    hide Start, TopDown, NoDuplicates, Excluded, Clean, PassAt, Reconcile, Ready, OriginOf, Judge, FilesNow,
      Untwinned, Twinless, RowsLeft, TwoFiles, ConflictSettled, Newer;
    assert p in order;
    var k :| 0 <= k < |order| && order[k] == p;
    FacedTurn(cfg, env, s0, order, k);
    var s := PassAt(cfg, env, s0, order, k).state;
    StillUndecided(cfg, s0, s, order[..k], p, Judge(cfg, s0.a.disk[p], s0.b.disk[p]), StatOf(s0.a.disk[p]),
      StatOf(s0.b.disk[p]));
    SettledAtTurn(cfg, env, s0, order, k, src);
  }

  lemma OneIsNewer(s: State, p: Path) returns (src: Side)
    requires p in s.a.disk && p in s.b.disk
    ensures Newer(s, src, p)
  {
    src := if StatOf(s.b.disk[p]).mtime > StatOf(s.a.disk[p]).mtime then SideB else SideA;
  }

  /**
   * Exactly when a change on one side makes no saved copy under preserve: when no path that covers it by
   * letter case is removed before its turn.
   */
  lemma OneSidedChangeExactly(cfg: Config, env: Env, s0: State, order: seq<Path>, p: Path, src: Side)
    requires Start(cfg, env, s0) && UnionOrder(cfg, s0, order) && cfg.first == Union && cfg.conflict == Preserve
    requires Visible(cfg, p) && FilesAt(s0, p) && Drifted(cfg, s0, src, p)
    requires Judge(cfg, s0.a.disk[p], s0.b.disk[p]).differs
    ensures var final, at := Reconcile(cfg, env, s0, order), env.clock(p);
      Untwinned(cfg, s0, order, p) <==>
        ConflictName(p, SideA, at) !in final.a.disk && ConflictName(p, SideB, at) !in final.b.disk
  {
    hide Start, UnionOrder, Visible, Judge, Reconcile, Untwinned, ConflictName, Drifted, Newer, OriginOf, Resolved;
    DriftedNodes(cfg, s0, src, p);
    if Untwinned(cfg, s0, order, p) {
      OneSidedChange(cfg, env, s0, order, p, src, SideA);
      OneSidedChange(cfg, env, s0, order, p, src, SideB);
    } else {
      var newer := OneIsNewer(s0, p);
      UndecidedFavoursNewer(cfg, env, s0, order, p, newer);
    }
  }

  lemma DriftedNodes(cfg: Config, s: State, src: Side, p: Path)
    requires Drifted(cfg, s, src, p)
    ensures p in s.a.disk && p in s.b.disk
  {
  }

  /**
   * Exactly when the changed version reaches the other side. Nothing to carry; or the verdict of the
   * survey says the two differ, and either the change has a single origin or, its rows having fallen
   * with a path that covers it by letter case, the conflict policy favours it as the newer one.
   */
  lemma OneSidedChangeArrives(cfg: Config, env: Env, s0: State, order: seq<Path>, p: Path, src: Side)
    requires Start(cfg, env, s0) && UnionOrder(cfg, s0, order) && cfg.first == Union
    requires Visible(cfg, p) && FilesAt(s0, p) && Drifted(cfg, s0, src, p)
    ensures var final, from, to := Reconcile(cfg, env, s0, order), s0.Of(src).disk[p], s0.Of(src.Opposite()).disk[p];
      p in final.Of(src.Opposite()).disk
      && (SameVersion(final.Of(src.Opposite()).disk[p], from) <==>
            || SameVersion(to, from)
            || (Judge(cfg, s0.a.disk[p], s0.b.disk[p]).differs
                && (Untwinned(cfg, s0, order, p) || (cfg.conflict != Manual && Newer(s0, src, p)))))
  {
    hide Start, UnionOrder, Visible, Judge, Reconcile, Untwinned, ConflictName, Drifted, OriginOf, SameVersion,
      SavedCopy, DigestOf, DigestText, Resolved;
    DriftedNodes(cfg, s0, src, p);
    var final, from, to := Reconcile(cfg, env, s0, order), s0.Of(src).disk[p], s0.Of(src.Opposite()).disk[p];
    SameVersionReflexive(from);
    if !Judge(cfg, s0.a.disk[p], s0.b.disk[p]).differs {
      UnseenStays(cfg, env, s0, order, p, src.Opposite());
      SameVersionPasses(final.Of(src.Opposite()).disk[p], to, from);
    } else if Untwinned(cfg, s0, order, p) {
      OneSidedChange(cfg, env, s0, order, p, src, src);
    } else {
      var newer := OneIsNewer(s0, p);
      UndecidedFavoursNewer(cfg, env, s0, order, p, newer);
      assert cfg.conflict == Manual ==> At(final.Of(src.Opposite()).disk, p) == Some(to);
    }
  }

  lemma CopiedNodes(cfg: Config, s: State, o: Outcome, src: Side, p: Path, at: Stamp)
    requires Copied(cfg, s, o, src, p, at)
    ensures p in s.Of(src).disk && At(o.state.a.disk, p) == At(o.state.b.disk, p) == Some(s.Of(src).disk[p])
  {
    hide EntryFor, Frame;
  }

  lemma AfterwardsNotInOrder(cfg: Config, env: Env, s0: State, order: seq<Path>, k: nat)
    requires Start(cfg, env, s0) && UnionOrder(cfg, s0, order) && k < |order|
    ensures forall j :: k + 1 <= j < |order| ==> order[k] != order[j]
  {
    hide Start, TopDown;
  }

  // -------------------------------------------------------------- attributes of a pair

  /** One side alone left the mode or mtime recorded for it. */
  predicate AttrsDrifted(s: State, src: Side, p: Path) {
    && p in s.a.disk && p in s.b.disk && p in s.a.rows && p in s.b.rows
    && AttrsDiverged(StatOf(s.Of(src).disk[p]), s.Of(src).rows[p].AsStat())
    && !AttrsDiverged(StatOf(s.Of(src.Opposite()).disk[p]), s.Of(src.Opposite()).rows[p].AsStat())
  }

  lemma AttrsTurn(cfg: Config, env: Env, s: State, p: Path, src: Side)
    requires TwoFiles(s, p, env.clock(p)) && AttrsDrifted(s, src, p)
    requires !Judge(cfg, s.a.disk[p], s.b.disk[p]).differs && AttrsDiverged(StatOf(s.a.disk[p]), StatOf(s.b.disk[p]))
    ensures FilesNow(cfg, env, s, p) == PropagateAttrs(cfg, s, src, p)
  {
    hide Judge, PropagateAttrs, AttrsDiverged, NamesFree, Tree, HasParents, Clean, ReconcileDiffering;
  }

  lemma SameAttrsDrift(s0: State, s: State, src: Side, p: Path)
    requires AttrsDrifted(s0, src, p)
    requires At(s.a.disk, p) == At(s0.a.disk, p) && At(s.b.disk, p) == At(s0.b.disk, p)
    requires p in s.a.rows && p in s.b.rows && s.a.rows[p] == s0.a.rows[p] && s.b.rows[p] == s0.b.rows[p]
    ensures AttrsDrifted(s, src, p)
  {
    hide AttrsDiverged;
  }

  lemma AttrsTurnUnrecorded(cfg: Config, env: Env, s: State, p: Path, src: Side)
    requires TwoFiles(s, p, env.clock(p)) && Newer(s, src, p) && p !in s.a.rows
    requires !Judge(cfg, s.a.disk[p], s.b.disk[p]).differs && AttrsDiverged(StatOf(s.a.disk[p]), StatOf(s.b.disk[p]))
    ensures FilesNow(cfg, env, s, p) == PropagateAttrs(cfg, s, src, p)
  {
    hide Judge, PropagateAttrs, AttrsDiverged, NamesFree, Tree, HasParents, Clean, ReconcileDiffering;
  }

  /** The side whose attributes win: the one that changed, or the newer one if its row fell before the turn. */
  ghost predicate AttrsWinner(cfg: Config, s0: State, order: seq<Path>, p: Path, changed: Side, src: Side)
    requires p in s0.a.disk && p in s0.b.disk
  {
    if Untwinned(cfg, s0, order, p) then src == changed else Newer(s0, src, p)
  }

  lemma WinnerAtTurn(cfg: Config, env: Env, s0: State, s: State, order: seq<Path>, k: nat, changed: Side, src: Side)
    requires k < |order| && AttrsDrifted(s0, changed, order[k]) && AttrsWinner(cfg, s0, order, order[k], changed, src)
    requires RowsLeft(cfg, s0, s, order[..k], order[k])
    requires Untwinned(cfg, s0, order, order[k]) <==> Twinless(cfg, s0, order[..k], order[k])
    requires TwoFiles(s, order[k], env.clock(order[k]))
    requires s.a.disk[order[k]] == s0.a.disk[order[k]] && s.b.disk[order[k]] == s0.b.disk[order[k]]
    requires !Judge(cfg, s.a.disk[order[k]], s.b.disk[order[k]]).differs
    requires AttrsDiverged(StatOf(s.a.disk[order[k]]), StatOf(s.b.disk[order[k]]))
    ensures FilesNow(cfg, env, s, order[k]) == PropagateAttrs(cfg, s, src, order[k])
  {
    hide Untwinned, Twinless, Judge, AttrsDiverged, FilesNow, PropagateAttrs, TwoFiles;
    var p := order[k];
    TwoNodes(s, p, env.clock(p));
    if Untwinned(cfg, s0, order, p) {
      SameAttrsDrift(s0, s, src, p);
      AttrsTurn(cfg, env, s, p, src);
    } else {
      AttrsTurnUnrecorded(cfg, env, s, p, src);
    }
  }

  lemma TwoNodes(s: State, p: Path, at: Stamp)
    requires TwoFiles(s, p, at)
    ensures p in s.a.disk && p in s.b.disk && Tree(s.a.disk) && Tree(s.b.disk)
  {
  }

  /** Contents agree: mode and mtime of the winning side reach the other, which keeps its content. */
  lemma AttrsFollowTheChange(cfg: Config, env: Env, s0: State, order: seq<Path>, p: Path, changed: Side, src: Side)
    requires Start(cfg, env, s0) && UnionOrder(cfg, s0, order) && Visible(cfg, p) && FilesAt(s0, p)
    requires AttrsDrifted(s0, changed, p) && AttrsWinner(cfg, s0, order, p, changed, src)
    requires !Judge(cfg, s0.a.disk[p], s0.b.disk[p]).differs
    requires AttrsDiverged(StatOf(s0.a.disk[p]), StatOf(s0.b.disk[p]))
    ensures var final, dst := Reconcile(cfg, env, s0, order), src.Opposite();
      && At(final.Of(src).disk, p) == Some(s0.Of(src).disk[p])
      && At(final.Of(dst).disk, p) == Some(WithAttrs(s0.Of(dst).disk[p], s0.Of(src).disk[p]))
      && Sync.Find(final.conflicts, p) == Sync.Find(s0.conflicts, p)
  {
    hide Start, TopDown, NoDuplicates, Excluded, Clean, PassAt, Reconcile, Ready, Judge, FilesNow, AttrsWinner,
      Untwinned, Twinless, RowsLeft, TwoFiles, AttrsDiverged, PropagateAttrs, Frame, WithAttrs, ConflictName, EntryFor;
    assert p in order;
    var k :| 0 <= k < |order| && order[k] == p;
    FacedTurn(cfg, env, s0, order, k);
    var s := PassAt(cfg, env, s0, order, k).state;
    WinnerAtTurn(cfg, env, s0, s, order, k, changed, src);
    TwoNodes(s, p, env.clock(p));
    AttrsPropagated(cfg, s, src, p, env.clock(p));
    KeptAfterTurn(cfg, env, s0, order, k, src);
    AfterwardsNotInOrder(cfg, env, s0, order, k);
    ConflictKeptFrom(cfg, env, s0, order, k + 1, |order|, p);
    PassAtEnd(cfg, env, s0, order);
  }

  // ------------------------------------------------------------------- removal events

  /** The removal of a file empties its place on the other side, and no other place. */
  lemma RemovalEventHandled(cfg: Config, env: Env, s: State, ev: Event)
    requires ev.kind == Delete && !ev.isDir && FilesAt(s, ev.path) && Tree(s.a.disk) && Tree(s.b.disk)
    ensures var o, dst := Process(cfg, env, s, ev), ev.side.Opposite();
      && o.error.None? && o.writes == [] && o.state.conflicts == s.conflicts
      && o.state.Of(ev.side).disk == s.Of(ev.side).disk
      && o.state.Of(dst).disk == s.Of(dst).disk - {ev.path}
      && RowsElsewhereKept(s, o.state, ev.path)
      && (ev.path in s.Of(dst).disk || ev.path !in s.a.rows || ev.path !in s.b.rows ==>
            ev.path !in o.state.a.rows && ev.path !in o.state.b.rows)
  {
    hide Tree, RemoveDir;
    var dst := ev.side.Opposite();
    NothingBelowNothing(s.Of(dst).disk, ev.path);
    if ev.path !in s.Of(dst).disk { assert s.Of(dst).disk - {ev.path} == s.Of(dst).disk; }
  }

  /** How the conflict list remembers a directory from which something was set aside. */
  function SetAsideRow(to: Path): Conflict {
    Conflict("", "", Some("preserve-unknown:" + to))
  }

  lemma RemovalNote(cfg: Config, env: Env, s: State, side: Side, p: Path)
    requires RemoveDir(cfg, env, s, side, p).error.None?
    ensures Sync.Find(RemoveDir(cfg, env, s, side, p).state.conflicts, p) ==
      if SetsAside(cfg, env, s.Of(side), p) then Some(SetAsideRow(PreservedDirName(p, side, env.clock(p))))
      else Sync.Find(s.conflicts, p)
    ensures RemoveDir(cfg, env, s, side, p).writes == []
  {
    hide PreservedDirName, EmptiedDisk, SetsAside;
  }

  lemma RemovalDisk(cfg: Config, env: Env, s: State, side: Side, p: Path)
    requires Clean(p) && Removable(env, s.Of(side).disk, p)
    ensures RemovedKeepingUnknown(cfg, s.Of(side), RemoveDir(cfg, env, s, side, p).state.Of(side).disk, p,
              PreservedDirName(p, side, env.clock(p)))
  {
    hide PreservedDirName, Clean, Tree, Unsynced, Visits, Unknown, Under, RemovedKeepingUnknown, NamesFree;
    if SetsAside(cfg, env, s.Of(side), p) {
      var u := SomethingUnknown(cfg, env, s.Of(side), p);
      AboveIsThere(s.Of(side).disk, u, p);
      TreeHasParents(s.Of(side).disk, p);
      RemoveDirPreserves(cfg, env, s, side, p);
    } else {
      RemoveDirIs(cfg, env, s, side, p);
      NamesFreeFacts(s.Of(side).disk, p, env.clock(p), side);
      assert Faithful(env.walk(s.Of(side).disk, p), s.Of(side).disk, p);
      UnsyncedIsUnknown(cfg, env, s.Of(side), p);
      PlainRemoval(cfg, s.Of(side), p, PreservedDirName(p, side, env.clock(p)),
        Unsynced(cfg, s.Of(side), Visits(env, s.Of(side).disk, p)));
    }
  }

  /** What the removal of a directory on one side leaves on the other, and in the two lists. */
  ghost predicate DirGone(cfg: Config, env: Env, s: State, t: State, dst: Side, p: Path) {
    var to := PreservedDirName(p, dst, env.clock(p));
    && RemovedKeepingUnknown(cfg, s.Of(dst), t.Of(dst).disk, p, to)
    && t.Of(dst.Opposite()).disk == s.Of(dst.Opposite()).disk
    && (forall x :: x != p ==> Sync.Find(t.conflicts, x) == Sync.Find(s.conflicts, x))
    && Sync.Find(t.conflicts, p) == (if SetsAside(cfg, env, s.Of(dst), p) then Some(SetAsideRow(to)) else Sync.Find(s.conflicts, p))
    && (forall x :: Sync.Find(t.a.rows, x) == if Covered(x, p) then None else Sync.Find(s.a.rows, x))
    && (forall x :: Sync.Find(t.b.rows, x) == if Covered(x, p) then None else Sync.Find(s.b.rows, x))
  }

  lemma DirDeletionDone(cfg: Config, env: Env, s: State, src: Side, p: Path)
    requires Clean(p) && Removable(env, s.Of(src.Opposite()).disk, p)
    ensures var o := PropagateDelete(cfg, env, s, src, p, true);
      o.error.None? && o.writes == [] && DirGone(cfg, env, s, o.state, src.Opposite(), p)
  {
    hide PreservedDirName, Clean, Removable, RemoveDir, SetsAside, Covered, RemovedKeepingUnknown;
    var dst := src.Opposite();
    RemovalEnds(cfg, env, s, dst, p);
    RemovalNote(cfg, env, s, dst, p);
    RemovalDisk(cfg, env, s, dst, p);
  }

  /**
   * The removal of a directory. Unless the table already reflects it, the other side loses the directory
   * and all below it, but for the files the table does not vouch for, which move to the preserved
   * directory; the rows of all it covers go, on both sides; and the conflict list has a row for it
   * exactly if something was set aside.
   */
  lemma DirRemovalEventHandled(cfg: Config, env: Env, s: State, ev: Event)
    requires ev.kind == Delete && ev.isDir && Clean(ev.path) && Removable(env, s.Of(ev.side.Opposite()).disk, ev.path)
    ensures var o := Process(cfg, env, s, ev);
      && o.error.None? && o.writes == []
      && (AlreadySynced(cfg, s, ev) ==> o.state == s)
      && (!AlreadySynced(cfg, s, ev) ==> DirGone(cfg, env, s, o.state, ev.side.Opposite(), ev.path))
  {
    hide PropagateDelete, AlreadySynced, Clean, Removable, DirGone;
    DirDeletionDone(cfg, env, s, ev.side, ev.path);
  }

  /**
   * A file removed on both sides before either removal is handled: the event is recognised as already
   * reflected and the rows stay. A file created there later on one side, while nobody watches, is then
   * taken for a leftover: the next pass under union removes it, unless a path that covers it by letter
   * case is removed before its turn.
   */
  lemma DoubleRemovalLosesNewFile(cfg: Config, env: Env, s: State, ev: Event, side: Side, n: Node, order: seq<Path>)
    requires ev.kind == Delete && ev.path !in s.a.disk && ev.path !in s.b.disk
    requires ev.path in s.a.rows && ev.path in s.b.rows && cfg.first == Union && Carries(n) && Visible(cfg, ev.path)
    requires var after := Process(cfg, env, s, ev).state;
      var later := after.WithDisk(side, after.Of(side).disk[ev.path := n]);
      Start(cfg, env, later) && UnionOrder(cfg, later, order) && HasParents(later.Of(side.Opposite()).disk, ev.path)
    ensures var after := Process(cfg, env, s, ev).state;
      var later := after.WithDisk(side, after.Of(side).disk[ev.path := n]);
      var final := Reconcile(cfg, env, later, order);
      after == s && At(final.a.disk, ev.path) == At(final.b.disk, ev.path) ==
        if Untwinned(cfg, later, order, ev.path) then None else Some(n)
  {
    hide Start, UnionOrder, Visible, HasParents, Untwinned, Reconcile;
    assert Process(cfg, env, s, ev) == Done(s, []);
    hide Process;
    var later := s.WithDisk(side, s.Of(side).disk[ev.path := n]);
    LoneFileDecided(cfg, env, later, order, ev.path, side);
  }
}
