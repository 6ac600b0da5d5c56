// What a whole pass does to the versions of one file (internal/engine/resync.go, conflict.go):
// none is lost under union and preserve, and a change on one side alone is carried over.

module Versions {
  import opened Actions
  import opened Digests
  import opened Disks
  import opened Events
  import opened Exclude
  import opened Frames
  import opened Names
  import opened Nodes
  import opened Options
  import opened Passes
  import opened Paths
  import opened Reconciled
  import opened Settings
  import opened Sync
  import opened Twins

  /** A file or link on both sides at a visible path of the order. */
  ghost predicate FacedAt(cfg: Config, env: Env, s0: State, order: seq<Path>, k: nat) {
    && Start(cfg, env, s0) && UnionOrder(cfg, s0, order) && k < |order|
    && FilesAt(s0, order[k]) && order[k] in s0.a.disk && order[k] in s0.b.disk
  }

  /** A path of the order whose place exists on both sides. */
  ghost predicate PlacedAt(cfg: Config, env: Env, s0: State, order: seq<Path>, k: nat) {
    Start(cfg, env, s0) && UnionOrder(cfg, s0, order) && k < |order| && Placed(s0, order[k])
  }

  lemma FacedIsPlaced(cfg: Config, env: Env, s0: State, order: seq<Path>, k: nat)
    requires FacedAt(cfg, env, s0, order, k)
    ensures PlacedAt(cfg, env, s0, order, k)
  {
    hide UnionOrder, NamesFree, WalkFaithful, NoSpecialInTheWay, Clean, Excluded;
    TreeHasParents(s0.a.disk, order[k]);
    TreeHasParents(s0.b.disk, order[k]);
  }

  /** Such a path gets its turn: everything above it is a directory on both sides. */
  lemma PlacedGetsTurn(cfg: Config, env: Env, s0: State, order: seq<Path>, k: nat)
    requires PlacedAt(cfg, env, s0, order, k)
    ensures !UnderAny(order[k], PassAt(cfg, env, s0, order, k).handled)
  {
    hide Start, UnionOrder, PassInv, Next, Turn, ActNow, Ready, PassAt, Grown, Placed, UnderAny;
    TurnAt(cfg, env, s0, order, k);
    var pass := PassAt(cfg, env, s0, order, k);
    HandledFact(cfg, env, s0, order[..k], pass);
    if UnderAny(order[k], pass.handled) {
      SkippedIsNotPlaced(s0, order[..k], pass.handled, order[k]);
    }
  }

  /** At its turn both sides hold what they held at the start, and a row is gone only if a doomed path covered it. */
  lemma PlacedAtTurn(cfg: Config, env: Env, s0: State, order: seq<Path>, k: nat)
    requires PlacedAt(cfg, env, s0, order, k)
    ensures var s, t, p := PassAt(cfg, env, s0, order, k).state, PassAt(cfg, env, s0, order, k + 1).state, order[k];
      && At(s.a.disk, p) == At(s0.a.disk, p) && At(s.b.disk, p) == At(s0.b.disk, p)
      && Ready(cfg, env, s, p) && t == ActNow(cfg, env, s, p).outcome.state
      && RowsLeft(cfg, s0, s, order[..k], p)
      && (Untwinned(cfg, s0, order, p) <==> Twinless(cfg, s0, order[..k], p))
      && Sync.Find(s.conflicts, p) == Sync.Find(s0.conflicts, p)
      && Visible(cfg, p)
  {
    hide Start, UnionOrder, ActNow, Ready, PassAt, Grown, DirsRemain, PendingUntouched, NamesRemainFree,
      RowsRemain, HandledRight, Visible, PlacedAt, Placed, Frame, BothDirs, LoneSide, RowsLeft, Twinless,
      Untwinned, Tree, UnderAny;
    PlacedGetsTurn(cfg, env, s0, order, k);
    PlacedParts(cfg, env, s0, order, k);
    TurnAt(cfg, env, s0, order, k);
    FreshInOrder(cfg, s0, order, k);
    RowsExactly(cfg, env, s0, order, k, order[k]);
    OrderOnce(cfg, s0, order);
    UntwinnedAtTurn(cfg, s0, order, k);
  }

  lemma PlacedParts(cfg: Config, env: Env, s0: State, order: seq<Path>, k: nat)
    requires PlacedAt(cfg, env, s0, order, k)
    ensures Start(cfg, env, s0) && UnionOrder(cfg, s0, order) && k < |order| && Placed(s0, order[k])
  {
  }

  lemma OrderOnce(cfg: Config, s0: State, order: seq<Path>)
    requires UnionOrder(cfg, s0, order)
    ensures NoDuplicates(order)
  {
  }

  /** The turn of a file or link on both sides. */
  lemma FacedTurn(cfg: Config, env: Env, s0: State, order: seq<Path>, k: nat)
    requires FacedAt(cfg, env, s0, order, k)
    ensures var s, p := PassAt(cfg, env, s0, order, k).state, order[k];
      && TwoFiles(s, p, env.clock(p)) && Ready(cfg, env, s, p) && p in s.a.disk && p in s.b.disk
      && s.a.disk[p] == s0.a.disk[p] && s.b.disk[p] == s0.b.disk[p]
      && At(s.a.disk, p) == At(s0.a.disk, p) && At(s.b.disk, p) == At(s0.b.disk, p)
      && PassAt(cfg, env, s0, order, k + 1).state == FilesNow(cfg, env, s, p).state
      && RowsLeft(cfg, s0, s, order[..k], p)
      && (Untwinned(cfg, s0, order, p) <==> Twinless(cfg, s0, order[..k], p))
      && Sync.Find(s.conflicts, p) == Sync.Find(s0.conflicts, p)
  {
    hide Start, UnionOrder, ActNow, PassAt, FilesNow, Tree, NamesFree, HasParents, WalkFaithful, RowsLeft,
      Twinless, Untwinned, Excluded;
    var s, p := PassAt(cfg, env, s0, order, k).state, order[k];
    FacedIsPlaced(cfg, env, s0, order, k);
    PlacedAtTurn(cfg, env, s0, order, k);
    SameFiles(s0, s, p);
    TwoFilesReady(cfg, env, s, p);
    FilesTurn(cfg, env, s, p);
  }

  // -------------------------------------------------------- after the turn of a path

  lemma LaterPathsAreVisible(cfg: Config, env: Env, s0: State, order: seq<Path>, k: nat)
    requires Start(cfg, env, s0) && UnionOrder(cfg, s0, order) && k < |order|
    ensures Visible(cfg, order[k])
    ensures forall j :: k < j < |order| ==> order[j] != order[k] && !Under(order[k], order[j]) && Visible(cfg, order[j])
  {
    hide Excluded, Clean, NamesFree, WalkFaithful, Tree, NoSpecialInTheWay;
    assert forall j :: 0 <= j < |order| ==> order[j] in order;
  }

  /** Once a path has had its turn, neither it nor what was saved of it is touched again. */
  lemma KeptAfterTurn(cfg: Config, env: Env, s0: State, order: seq<Path>, k: nat, side: Side)
    requires Start(cfg, env, s0) && UnionOrder(cfg, s0, order) && k < |order|
    ensures var t, final, p := PassAt(cfg, env, s0, order, k + 1).state, Reconcile(cfg, env, s0, order), order[k];
      var name := ConflictName(p, side, env.clock(p));
      && At(final.a.disk, p) == At(t.a.disk, p) && At(final.b.disk, p) == At(t.b.disk, p)
      && At(final.a.disk, name) == At(t.a.disk, name) && At(final.b.disk, name) == At(t.b.disk, name)
  {
    hide UnionOrder, PassAt, ConflictName, Saves, Excluded, Clean, LoneSide, Reconcile, NamesFree,
      WalkFaithful, NoSpecialInTheWay, Tree, At;
    var p := order[k];
    var name := ConflictName(p, side, env.clock(p));
    LaterPathsAreVisible(cfg, env, s0, order, k);
    forall j | k + 1 <= j < |order| ensures OutOfReach(env, s0, order[j], p) && OutOfReach(env, s0, order[j], name) {
      LaterTurnsMiss(cfg, env, s0, p, side, order[j]);
    }
    KeptFrom(cfg, env, s0, order, k + 1, |order|, p);
    KeptFrom(cfg, env, s0, order, k + 1, |order|, name);
    PassAtEnd(cfg, env, s0, order);
  }

  lemma LaterTurnsMiss(cfg: Config, env: Env, s0: State, p: Path, side: Side, q: Path)
    requires SavedExcluded(cfg) && Visible(cfg, p) && Visible(cfg, q) && q != p && !Under(p, q)
    ensures OutOfReach(env, s0, q, p) && OutOfReach(env, s0, q, ConflictName(p, side, env.clock(p)))
  {
    hide ConflictName, Saves, Excluded, Clean, LoneSide;
    var at := env.clock(p);
    var name := ConflictName(p, side, at);
    VisibleIsNotSaved(cfg, q, p, env.clock(q));
    SavesItsNames(p, side, at);
    SavesDisjoint(cfg, name, p, q, at, env.clock(q));
    if name == q { VisibleIsNotSaved(cfg, p, q, at); }
    if Under(name, q) { ConflictNameSitsBeside(p, side, at, q); }
  }

  // --------------------------------------------------------------- nothing is lost

  lemma SafeTravels(s0: State, s: State, t: State, final: State, side: Side, p: Path, at: Stamp)
    requires VersionSafe(s, t, side, p, at)
    requires At(s.Of(side).disk, p) == At(s0.Of(side).disk, p)
    requires p in s.Of(side).rows ==> p in s0.Of(side).rows && s.Of(side).rows[p] == s0.Of(side).rows[p]
    requires At(final.Of(side).disk, p) == At(t.Of(side).disk, p)
    requires At(final.Of(side).disk, ConflictName(p, side, at)) == At(t.Of(side).disk, ConflictName(p, side, at))
    ensures VersionSafe(s0, final, side, p, at)
  {
    hide ConflictName, SameVersion, Unchanged;
  }

  /**
   * No version is overwritten unsaved. Under union and preserve, for every path that is a file or link
   * on both sides, each version is at the end of the pass still in place, or beside it under its
   * conflict name, or its size and mtime were still those recorded for it before the pass.
   */
  lemma NothingIsLost(cfg: Config, env: Env, s0: State, order: seq<Path>, p: Path)
    requires Start(cfg, env, s0) && UnionOrder(cfg, s0, order)
    requires cfg.first == Union && cfg.conflict == Preserve
    requires Visible(cfg, p) && FilesAt(s0, p) && p in s0.a.disk && p in s0.b.disk
    ensures var final := Reconcile(cfg, env, s0, order);
      VersionSafe(s0, final, SideA, p, env.clock(p)) && VersionSafe(s0, final, SideB, p, env.clock(p))
  {
    hide Start, TopDown, NoDuplicates, Excluded, Clean, ActNow, PassAt, VersionSafe, ConflictName,
      Reconcile, Take, Ready, Tree, Twinless, Untwinned, SavedCopy;
    assert p in order;
    var k :| 0 <= k < |order| && order[k] == p;
    FacedIsPlaced(cfg, env, s0, order, k);
    PlacedAtTurn(cfg, env, s0, order, k);
    var s, t, final := PassAt(cfg, env, s0, order, k).state, PassAt(cfg, env, s0, order, k + 1).state, Reconcile(cfg, env, s0, order);
    SameFiles(s0, s, p);
    TurnIsSafe(cfg, env, s, p);
    KeptAfterTurn(cfg, env, s0, order, k, SideA);
    KeptAfterTurn(cfg, env, s0, order, k, SideB);
    SafeTravels(s0, s, t, final, SideA, p, env.clock(p));
    SafeTravels(s0, s, t, final, SideB, p, env.clock(p));
  }

  lemma SameFiles(s0: State, s: State, p: Path)
    requires At(s.a.disk, p) == At(s0.a.disk, p) && At(s.b.disk, p) == At(s0.b.disk, p)
    requires FilesAt(s0, p) && p in s0.a.disk && p in s0.b.disk
    ensures FilesAt(s, p) && p in s.a.disk && p in s.b.disk
    ensures s.a.disk[p] == s0.a.disk[p] && s.b.disk[p] == s0.b.disk[p]
  {
  }

  // ------------------------------------------------------- a change on one side alone

  /** src left the state recorded for it at p; the other side is as recorded, in digest, size and mtime. */
  predicate Drifted(cfg: Config, s: State, src: Side, p: Path) {
    var from, to := s.Of(src), s.Of(src.Opposite());
    && p in from.disk && p in to.disk && p in from.rows && p in to.rows
    && SideChanged(DigestOf(cfg, from.disk[p]), StatOf(from.disk[p]), from.rows[p])
    && Compare(DigestOf(cfg, to.disk[p]), to.rows[p].digest) == Same
    && Unchanged(StatOf(to.disk[p]), to.rows[p].AsStat())
  }

  lemma DriftHasOrigin(cfg: Config, s: State, src: Side, p: Path)
    requires Drifted(cfg, s, src, p)
    ensures var a, b := s.a.disk[p], s.b.disk[p];
      OriginOf(s, p, Judge(cfg, a, b), StatOf(a), StatOf(b)) == Some(src)
    ensures DetectConflict(cfg, s, src, p) == Success(false) || s.Of(src.Opposite()).disk[p].Dir?
  {
    hide DigestOf, ContentDiffers;
  }

  lemma DriftTurn(cfg: Config, env: Env, s: State, src: Side, p: Path)
    requires TwoFiles(s, p, env.clock(p)) && cfg.first == Union && Drifted(cfg, s, src, p)
    requires Judge(cfg, s.a.disk[p], s.b.disk[p]).differs
    ensures var t := FilesNow(cfg, env, s, p).state;
      && At(t.a.disk, p) == At(t.b.disk, p) == Some(s.Of(src).disk[p])
      && t.conflicts == s.conflicts
      && t.Of(src).disk == s.Of(src).disk
      && t.Of(src.Opposite()).disk == s.Of(src.Opposite()).disk[p := s.Of(src).disk[p]]
  {
    hide DigestOf, ContentDiffers, OriginOf, Judge, DetectConflict, Drifted, PropagateFile, Frame,
      NamesFree, Tree, HasParents, EntryFor, Clean, ResolveConflict;
    DriftHasOrigin(cfg, s, src, p);
    PropagateFileResult(cfg, s, src, p, env.clock(p));
  }

  lemma FilesTurn(cfg: Config, env: Env, s: State, p: Path)
    requires FilesAt(s, p) && p in s.a.disk && p in s.b.disk
    ensures ActNow(cfg, env, s, p).outcome == FilesNow(cfg, env, s, p)
  {
    hide Judge, ReconcileFiles;
  }

  lemma SameDrift(cfg: Config, s0: State, s: State, src: Side, p: Path)
    requires Drifted(cfg, s0, src, p)
    requires At(s.a.disk, p) == At(s0.a.disk, p) && At(s.b.disk, p) == At(s0.b.disk, p)
    requires p in s.a.rows && p in s.b.rows && s.a.rows[p] == s0.a.rows[p] && s.b.rows[p] == s0.b.rows[p]
    ensures Drifted(cfg, s, src, p)
  {
    hide DigestOf, SideChanged;
  }

  lemma {:induction false} ConflictKeptFrom(cfg: Config, env: Env, s0: State, order: seq<Path>, n: nat, m: nat,
        x: Path)
    requires Start(cfg, env, s0) && UnionOrder(cfg, s0, order) && n <= m <= |order|
    requires forall j :: n <= j < m ==> x != order[j]
    ensures Sync.Find(PassAt(cfg, env, s0, order, m).state.conflicts, x) == Sync.Find(PassAt(cfg, env, s0, order,
      n).state.conflicts, x)
    decreases m - n
  {
    hide Start, UnionOrder, PassInv, Next, ActNow, Ready, PassAt, UnderAny, Grown, LoneSide, BothDirs,
      RowsElsewhereKept, DiskKept, RowsKept, Tree, At;
    if n < m {
      ConflictKeptFrom(cfg, env, s0, order, n, m - 1, x);
      TurnAt(cfg, env, s0, order, m - 1);
    }
  }

  /** What the turn of a drifted path starts from, if no doomed path covers it. */
  lemma DriftPass(cfg: Config, env: Env, s0: State, order: seq<Path>, k: nat, src: Side)
    requires FacedAt(cfg, env, s0, order, k)
    requires Drifted(cfg, s0, src, order[k]) && Untwinned(cfg, s0, order, order[k])
    ensures Drifted(cfg, PassAt(cfg, env, s0, order, k).state, src, order[k])
  {
    hide Start, UnionOrder, PassAt, Drifted, FilesNow, Twinless, Untwinned, TwoFiles, Ready, SideChanged;
    var s, p := PassAt(cfg, env, s0, order, k).state, order[k];
    FacedTurn(cfg, env, s0, order, k);
    DriftedRows(cfg, s0, src, p);
    SameDrift(cfg, s0, s, src, p);
  }

  lemma DriftedRows(cfg: Config, s: State, src: Side, p: Path)
    requires Drifted(cfg, s, src, p)
    ensures p in s.a.rows && p in s.b.rows
  {
  }

  lemma NamesFreeInTheEnd(cfg: Config, env: Env, s: State, src: Side, p: Path, side: Side)
    requires TwoFiles(s, p, env.clock(p)) && cfg.first == Union && Drifted(cfg, s, src, p)
    requires Judge(cfg, s.a.disk[p], s.b.disk[p]).differs
    ensures var t, name := FilesNow(cfg, env, s, p).state, ConflictName(p, side, env.clock(p));
      name !in t.a.disk && name !in t.b.disk
  {
    hide ConflictName, Judge, Drifted, FilesNow, Tree, HasParents, Saves;
    DriftTurn(cfg, env, s, src, p);
    SavesItsNames(p, side, env.clock(p));
    NamesDiffer(p, side, env.clock(p), s);
    assert ConflictName(p, side, env.clock(p)) !in s.a.disk && ConflictName(p, side, env.clock(p)) !in s.b.disk;
  }

  /**
   * A change on one side is not a conflict. Under union, if one side left the state recorded for p and
   * the other did not, the comparison can tell the two apart, and no path that covers p by letter case is
   * removed before its turn, then the pass ends with the changed node on both sides, no saved copy of p,
   * and no trace in the conflict list. The changed node may differ in a part a sampled digest does not
   * read, as long as size or mtime moved.
   */
  lemma OneSidedChange(cfg: Config, env: Env, s0: State, order: seq<Path>, p: Path, src: Side, side: Side)
    requires Start(cfg, env, s0) && UnionOrder(cfg, s0, order) && cfg.first == Union
    requires Visible(cfg, p) && FilesAt(s0, p) && Drifted(cfg, s0, src, p) && Untwinned(cfg, s0, order, p)
    requires Judge(cfg, s0.a.disk[p], s0.b.disk[p]).differs
    ensures var final, name := Reconcile(cfg, env, s0, order), ConflictName(p, side, env.clock(p));
      && At(final.a.disk, p) == At(final.b.disk, p) == Some(s0.Of(src).disk[p])
      && name !in final.a.disk && name !in final.b.disk
      && Sync.Find(final.conflicts, p) == Sync.Find(s0.conflicts, p)
  {
    hide Start, TopDown, Excluded, Clean, Judge, PassAt, ConflictName, Reconcile, Untwinned, Twinless, FilesNow,
      TwoFiles, SideChanged, DigestOf, Ready, RowsLeft;
    assert p in order;
    var k :| 0 <= k < |order| && order[k] == p;
    FacedTurn(cfg, env, s0, order, k);
    DriftPass(cfg, env, s0, order, k, src);
    var s, t := PassAt(cfg, env, s0, order, k).state, PassAt(cfg, env, s0, order, k + 1).state;
    DriftTurn(cfg, env, s, src, p);
    NamesFreeInTheEnd(cfg, env, s, src, p, side);
    KeptAfterTurn(cfg, env, s0, order, k, side);
    ConflictKeptFrom(cfg, env, s0, order, k + 1, |order|, p);
    PassAtEnd(cfg, env, s0, order);
    var name := ConflictName(p, side, env.clock(p));
    assert At(t.a.disk, name) == At(t.b.disk, name) == None;
  }

  lemma QuietTurn(cfg: Config, env: Env, s: State, p: Path, side: Side)
    requires TwoFiles(s, p, env.clock(p)) && !Judge(cfg, s.a.disk[p], s.b.disk[p]).differs
    ensures var t := FilesNow(cfg, env, s, p).state;
      p in t.Of(side).disk && SameVersion(t.Of(side).disk[p], s.Of(side).disk[p])
  {
    hide Judge, ReconcileDiffering, Tree, HasParents, NamesFree, Clean, Frame, EntryFor, PropagateAttrs;
    var a, b, at := s.a.disk[p], s.b.disk[p], env.clock(p);
    if AttrsDiverged(StatOf(a), StatOf(b)) {
      var src := AttrOrigin(s, p, StatOf(a), StatOf(b));
      AttrsPropagated(cfg, s, src, p, at);
      AttrsKeepVersion(s.Of(src).disk[p], s.Of(src.Opposite()).disk[p]);
    } else {
      RecordedIs(cfg, s, p, [], at);
    }
  }

  /** What escapes the verdict stays behind: neither side's content moves. */
  lemma UnseenStays(cfg: Config, env: Env, s0: State, order: seq<Path>, p: Path, side: Side)
    requires Start(cfg, env, s0) && UnionOrder(cfg, s0, order)
    requires Visible(cfg, p) && FilesAt(s0, p) && p in s0.a.disk && p in s0.b.disk
    requires !Judge(cfg, s0.a.disk[p], s0.b.disk[p]).differs
    ensures var final := Reconcile(cfg, env, s0, order);
      p in final.Of(side).disk && SameVersion(final.Of(side).disk[p], s0.Of(side).disk[p])
  {
    hide Start, TopDown, Excluded, Clean, Judge, PassAt, ConflictName, Reconcile, Untwinned, Twinless, FilesNow,
      TwoFiles, SameVersion, Ready, RowsLeft;
    assert p in order;
    var k :| 0 <= k < |order| && order[k] == p;
    FacedTurn(cfg, env, s0, order, k);
    var s, t := PassAt(cfg, env, s0, order, k).state, PassAt(cfg, env, s0, order, k + 1).state;
    QuietTurn(cfg, env, s, p, side);
    KeptAfterTurn(cfg, env, s0, order, k, side);
    assert At(Reconcile(cfg, env, s0, order).Of(side).disk, p) == At(t.Of(side).disk, p);
  }

  lemma SameVersionPasses(l: Node, m: Node, n: Node)
    requires SameVersion(l, m)
    ensures SameVersion(l, n) <==> SameVersion(m, n)
  {
  }

  /** The two rows of a pair as a copy leaves them: one content, one size, one mtime. */
  predicate RecordedPair(s: State, p: Path) {
    && p in s.a.rows && p in s.b.rows
    && Compare(s.a.rows[p].digest, s.b.rows[p].digest) == Same
    && s.a.rows[p].size == s.b.rows[p].size && s.a.rows[p].mtime == s.b.rows[p].mtime
  }

  /**
   * After a recorded copy the verdict sees every change the table sees, provided the unchanged side
   * still has the very size and mtime recorded for it.
   */
  lemma RecordedDriftIsSeen(cfg: Config, s: State, src: Side, p: Path)
    requires Drifted(cfg, s, src, p) && RecordedPair(s, p) && FilesAt(s, p)
    requires var to := s.Of(src.Opposite());
      StatOf(to.disk[p]).size == to.rows[p].size && StatOf(to.disk[p]).mtime == to.rows[p].mtime
      && s.Of(src).rows[p].isDir == false
    ensures Judge(cfg, s.a.disk[p], s.b.disk[p]).differs
  {
    hide DigestOf;
    var from, to := s.Of(src), s.Of(src.Opposite());
    DigestsChain(DigestOf(cfg, from.disk[p]), from.rows[p].digest, to.rows[p].digest, DigestOf(cfg, to.disk[p]));
    CompareSymmetric(DigestOf(cfg, s.a.disk[p]), DigestOf(cfg, s.b.disk[p]));
    CompareSymmetric(s.a.rows[p].digest, s.b.rows[p].digest);
    CarriedDigests(cfg, s.a.disk[p]);
    CarriedDigests(cfg, s.b.disk[p]);
  }

  lemma CarriedDigests(cfg: Config, n: Node)
    requires Carries(n)
    ensures !DigestOf(cfg, n).IsZero()
  {
  }

  lemma DigestsChain(d: Digest, r1: Digest, r2: Digest, e: Digest)
    requires Compare(e, r2) == Same && (Compare(r1, r2) == Same || Compare(r2, r1) == Same)
    ensures Compare(d, e) == Same ==> Compare(d, r1) == Same && d.kind == e.kind
  {
  }

  const BEFORE: Node := File([1, 0, 0, 1], 420, 0)
  const CHANGED: Node := File([1, 5, 5, 1], 420, SECOND)
  const TOUCHED: Node := File([1, 0, 0, 1], 420, SECOND / 2)

  /**
   * The blind spot of sampling. Within the one-second tolerance the verdict can miss what the table
   * sees: the file of A changed in its middle and is a second newer, that of B is as recorded except
   * that its mtime moved by half a second, and the change does not reach B.
   */
  lemma SampledBlindSpot(cfg: Config, s: State)
    requires cfg.hashMax == 3 && cfg.hashSample == 1
    requires s.a == Replica(map["f" := CHANGED], map["f" := EntryFor(cfg, BEFORE)])
    requires s.b == Replica(map["f" := TOUCHED], map["f" := EntryFor(cfg, BEFORE)])
    ensures HashesAccepted(cfg.hashMax, cfg.hashSample) && RecordedPair(s, "f")
    ensures Drifted(cfg, s, SideA, "f") && !Judge(cfg, s.a.disk["f"], s.b.disk["f"]).differs
    ensures !SameVersion(s.a.disk["f"], s.b.disk["f"])
  {
    SamplesCoincide(cfg);
    ComputedSurvives(BEFORE, 3, 1);
    assert CHANGED.content[1] != TOUCHED.content[1];
  }

  lemma SamplesCoincide(cfg: Config)
    requires cfg.hashMax == 3 && cfg.hashSample == 1
    ensures DigestOf(cfg, BEFORE) == DigestOf(cfg, CHANGED) == DigestOf(cfg, TOUCHED)
    ensures DigestOf(cfg, BEFORE).kind == PartialKind && !DigestOf(cfg, BEFORE).IsZero()
  {
    hide Sha, BigEndian;
    var x, y := BEFORE.content, CHANGED.content;
    assert x[..1] == y[..1] && x[3..] == y[3..];
    ShaIsText(Sampled(x, 1));
  }
}
