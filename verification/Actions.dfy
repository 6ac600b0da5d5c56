// One turn of the reconciliation loop, deciding from what is really there
// (internal/engine/resync.go): it never fails, it stays within its path, and what it leaves behind.

module Actions {
  import opened Digests
  import opened Disks
  import opened Events
  import opened Exclude
  import opened Frames
  import opened Like
  import opened Names
  import opened Nodes
  import opened Options
  import opened Paths
  import opened Removal
  import opened Settings
  import opened Store
  import opened Sync

  // --------------------------------------------------------------- directories

  /** A directory at p on one side, nothing on the other. */
  ghost predicate LoneDir(s: State, src: Side, p: Path) {
    && p in s.Of(src).disk && s.Of(src).disk[p].Dir? && p !in s.Of(src.Opposite()).disk
    && Tree(s.a.disk) && Tree(s.b.disk) && HasParents(s.a.disk, p) && HasParents(s.b.disk, p)
  }

  lemma NothingBelowNothing(d: Disk, p: Path)
    requires Tree(d) && (p in d ==> !d[p].Dir?)
    ensures forall x :: Under(x, p) ==> x !in d
    ensures !HasEntries(d, p)
  {
  }

  lemma TreeWithDir(d: Disk, p: Path, perms: Perms)
    requires Tree(d) && HasParents(d, p)
    ensures Tree(d[p := Dir(perms)])
  {
  }

  lemma TreeGrafted(src: Disk, d: Disk, d': Disk, p: Path)
    requires Tree(src) && Tree(d) && HasParents(d, p) && p !in d && p in src && src[p].Dir?
    requires forall x :: At(d', x) == if AtOrUnder(x, p) then At(src, x) else At(d, x)
    ensures Tree(d')
  {
    forall x, q | x in d' && Under(x, q) ensures q in d' && d'[q].Dir? {
      assert At(d', x) == if AtOrUnder(x, p) then At(src, x) else At(d, x);
      assert At(d', q) == if AtOrUnder(q, p) then At(src, q) else At(d, q);
      if AtOrUnder(x, p) {
        AboveComparable(x, q, p);
      } else if AtOrUnder(q, p) {
        if q != p { UnderTransitive(x, q, p); }
      }
    }
  }

  lemma CopyTreeAcross(src: Disk, d: Disk, p: Path)
    requires Tree(src) && Tree(d) && HasParents(d, p) && p !in d && p in src && src[p].Dir?
    ensures CopyTree(src, p, d, p).Success?
    ensures var d' := CopyTree(src, p, d, p).value;
      Tree(d') && forall x :: At(d', x) == if AtOrUnder(x, p) then At(src, x) else At(d, x)
  {
    NothingBelowNothing(d, p);
    CopyTreeToFreePlace(src, p, d, p);
    var d' := CopyTree(src, p, d, p).value;
    forall x ensures At(d', x) == if AtOrUnder(x, p) then At(src, x) else At(d, x) {
      if AtOrUnder(x, p) { RebaseInPlace(x, p); }
    }
    TreeGrafted(src, d, d', p);
  }

  /** The directory a copy makes: the same, or with nine permission bits only where there was nothing in it. */
  ghost function MadeDir(d: Disk, p: Path): Node
    requires p in d
  {
    if HasEntries(d, p) then d[p] else Dir(StatOf(d[p]).perms % 512)
  }

  /** What a copied directory leaves: the same entries below p on both sides, all of them recorded. */
  ghost predicate DirCopied(cfg: Config, s: State, t: State, src: Side, p: Path) {
    && (forall x :: Under(x, p) ==> At(t.a.disk, x) == At(t.b.disk, x) == At(s.Of(src).disk, x))
    && p in t.a.disk && p in t.b.disk && t.a.disk[p].Dir? && t.b.disk[p].Dir?
    && p in s.Of(src).disk && t.Of(src.Opposite()).disk[p] == MadeDir(s.Of(src).disk, p)
    && t.Of(src).disk == s.Of(src).disk
    && (forall x :: Under(x, p) && !Excluded(cfg.exclude, x) && x in s.Of(src).disk ==>
          Find(t.a.rows, x) == Find(t.b.rows, x) == Some(EntryFor(cfg, s.Of(src).disk[x])))
    && t.conflicts == s.conflicts
  }

  lemma RecordedUnderFrame(cfg: Config, s: State, p: Path, at: Stamp)
    requires Tree(s.a.disk) && Tree(s.b.disk)
    ensures Frame(s, RecordSubtree(cfg, s, p), p, true, at)
  {
    hide Saves, Tree, Excluded, EntryFor, CaseUnder, Under;
    RecordedUnderKeepsRows(cfg, s.a, p);
    RecordedUnderKeepsRows(cfg, s.b, p);
  }

  lemma RecordedUnderKeepsRows(cfg: Config, r: Replica, p: Path)
    ensures RowsKept(r.rows, RecordedUnder(cfg, r, p), p, true)
  {
    hide Excluded, EntryFor, CaseUnder, Under;
    forall x | Under(x, p) ensures Covered(x, p) {
      UnderIsCaseUnder(x, p);
    }
  }

  lemma GraftFrame(s: State, dst: Side, d': Disk, p: Path, at: Stamp)
    requires Tree(s.a.disk) && Tree(s.b.disk) && Tree(d')
    requires forall x :: !AtOrUnder(x, p) ==> At(d', x) == At(s.Of(dst).disk, x)
    ensures Frame(s, s.WithDisk(dst, d'), p, true, at)
  {
    hide Saves, Tree, CaseUnder;
  }

  lemma EmptyDirCopied(cfg: Config, s: State, src: Side, p: Path, at: Stamp)
    requires LoneDir(s, src, p) && !HasEntries(s.Of(src).disk, p)
    ensures var o := PropagateDir(cfg, s, src, p);
      o.error.None? && Frame(s, o.state, p, true, at) && DirCopied(cfg, s, o.state, src, p)
  {
    hide EntryFor, Saves, Excluded, Frame;
    var dst := src.Opposite();
    var from, to := s.Of(src).disk, s.Of(dst).disk;
    ParentsAlreadyThere(to, p, StatOf(from[p]).perms % 512);
    NothingBelowNothing(to, p);
    var perms := StatOf(from[p]).perms % 512;
    TreeWithDir(to, p, perms);
    var made := s.WithDisk(dst, to[p := Dir(perms)]);
    GraftFrame(s, dst, to[p := Dir(perms)], p, at);
    RecordedIs(cfg, made, p, [(dst, p)], at);
    var o := Recorded(cfg, made, p, [(dst, p)]);
    FrameWidens(made, o.state, p, at);
    FrameComposes(s, made, o.state, p, true, at);
    assert PropagateDir(cfg, s, src, p) == o;
  }

  lemma FullDirCopied(cfg: Config, s: State, src: Side, p: Path, at: Stamp)
    requires LoneDir(s, src, p) && HasEntries(s.Of(src).disk, p)
    ensures var o := PropagateDir(cfg, s, src, p);
      o.error.None? && Frame(s, o.state, p, true, at) && DirCopied(cfg, s, o.state, src, p)
  {
    hide EntryFor, Saves, Excluded, Frame, Tree, HasParents, CopyTree;
    var dst := src.Opposite();
    var from, to := s.Of(src).disk, s.Of(dst).disk;
    CopyTreeAcross(from, to, p);
    var d' := CopyTree(from, p, to, p).value;
    var made := s.WithDisk(dst, d');
    GraftFrame(s, dst, d', p, at);
    assert At(d', p) == At(from, p);
    RecordedIs(cfg, made, p, [], at);
    var recorded := Recorded(cfg, made, p, []).state;
    FrameWidens(made, recorded, p, at);
    FrameComposes(s, made, recorded, p, true, at);
    RecordedUnderFrame(cfg, recorded, p, at);
    FrameComposes(s, recorded, RecordSubtree(cfg, recorded, p), p, true, at);
    assert PropagateDir(cfg, s, src, p).state == RecordSubtree(cfg, recorded, p);
    SubtreeRecorded(cfg, s, recorded, src, p);
  }

  lemma SubtreeRows(cfg: Config, d: Disk, r: Replica, p: Path, x: Path)
    requires Under(x, p) && !Excluded(cfg.exclude, x) && x in d && At(r.disk, x) == At(d, x)
    ensures Sync.Find(RecordedUnder(cfg, r, p), x) == Some(EntryFor(cfg, d[x]))
  {
    hide EntryFor, Excluded, Under;
  }

  lemma SubtreeRecorded(cfg: Config, s: State, t: State, src: Side, p: Path)
    requires p in s.Of(src).disk && s.Of(src).disk[p].Dir? && HasEntries(s.Of(src).disk, p)
    requires t.Of(src).disk == s.Of(src).disk && t.conflicts == s.conflicts
    requires forall x :: AtOrUnder(x, p) ==> At(t.Of(src.Opposite()).disk, x) == At(s.Of(src).disk, x)
    ensures DirCopied(cfg, s, RecordSubtree(cfg, t, p), src, p)
  {
    hide EntryFor, Excluded, HasEntries, RecordedUnder;
    var d := s.Of(src).disk;
    assert At(t.Of(src.Opposite()).disk, p) == At(d, p);
    forall x | Under(x, p) ensures At(t.a.disk, x) == At(t.b.disk, x) == At(d, x) {
      assert AtOrUnder(x, p);
    }
    forall x | Under(x, p) && !Excluded(cfg.exclude, x) && x in d
      ensures Sync.Find(RecordedUnder(cfg, t.a, p), x) == Sync.Find(RecordedUnder(cfg, t.b, p),
        x) == Some(EntryFor(cfg, d[x]))
    {
      SubtreeRows(cfg, d, t.a, p, x);
      SubtreeRows(cfg, d, t.b, p, x);
    }
  }

  lemma ForgottenFrame(s: State, p: Path, wide: bool, at: Stamp)
    requires Tree(s.a.disk) && Tree(s.b.disk)
    ensures Frame(s, ForgetSubtree(s, p), p, wide, at)
  {
    hide Saves, Tree, CaseUnder, Under;
  }

  /** Both sides are rid of p and all below it. */
  ghost predicate Gone(t: State, p: Path) {
    forall x :: AtOrUnder(x, p) ==> x !in t.a.disk && x !in t.b.disk
  }

  lemma RemovedFrame(cfg: Config, s: State, t: State, side: Side, p: Path, at: Stamp)
    requires Tree(s.a.disk) && Tree(s.b.disk)
    requires RemovedKeepingUnknown(cfg, s.Of(side), t.Of(side).disk, p, PreservedDirName(p, side, at))
    requires t.Of(side.Opposite()) == s.Of(side.Opposite()) && t.Of(side).rows == s.Of(side).rows
    requires forall x :: x != p ==> Find(t.conflicts, x) == Find(s.conflicts, x)
    ensures Frame(s, t, p, true, at)
  {
    hide PreservedDirName, Tree, CaseUnder, Unknown, Rebase, ConflictName;
    var to := PreservedDirName(p, side, at);
    forall x | !AtOrUnder(x, p) && !Saves(x, p, at)
      ensures At(t.Of(side).disk, x) == At(s.Of(side).disk, x)
    {
      assert AtOrUnder(x, to) ==> SavedFor(x, p, side, at);
    }
  }

  lemma DirDeleted(cfg: Config, env: Env, s: State, present: Side, p: Path)
    requires Ready(cfg, env, s, p) && LoneDir(s, present, p)
    ensures var o := DeleteOneSided(cfg, env, s, present, p, true);
      o.error.None? && Frame(s, o.state, p, true, env.clock(p)) && Gone(o.state, p)
  {
    hide PreservedDirName, Tree, Unknown, Rebase, ConflictName, NamesFree, HasParents, Excluded, Saves,
      RemoveDir, WalkFaithful, CaseUnder;
    var at := env.clock(p);
    RemoveDirPreserves(cfg, env, s, present, p);
    var removed := RemoveDir(cfg, env, s, present, p).state;
    RemovedFrame(cfg, s, removed, present, p, at);
    ForgottenFrame(removed, p, true, at);
    FrameComposes(s, removed, ForgetSubtree(removed, p), p, true, at);
    NothingBelowNothing(s.Of(present.Opposite()).disk, p);
  }

  lemma TreeWithout(d: Disk, p: Path)
    requires Tree(d) && (p in d ==> !d[p].Dir?)
    ensures Tree(d - {p})
  {
  }

  lemma FileDeleted(cfg: Config, env: Env, s: State, present: Side, p: Path)
    requires Ready(cfg, env, s, p) && FilesAt(s, p) && p !in s.Of(present.Opposite()).disk
    ensures var o := DeleteOneSided(cfg, env, s, present, p, false);
      o.error.None? && Frame(s, o.state, p, false, env.clock(p))
      && At(o.state.a.disk, p) == At(o.state.b.disk, p) == None
  {
    hide Tree, NamesFree, HasParents, Excluded, Saves, WalkFaithful, CaseUnder, Frame;
    var d := s.Of(present).disk;
    NothingBelowNothing(d, p);
    TreeWithout(d, p);
    var removed := s.WithDisk(present, d - {p});
    WithoutFrame(s, present, p, env.clock(p));
    FrameKeepsTrees(s, removed, p, false, env.clock(p));
    ForgottenFrame(removed, p, false, env.clock(p));
    FrameComposes(s, removed, ForgetSubtree(removed, p), p, false, env.clock(p));
  }

  lemma WithoutFrame(s: State, side: Side, p: Path, at: Stamp)
    requires Tree(s.a.disk) && Tree(s.b.disk) && Tree(s.Of(side).disk - {p})
    ensures Frame(s, s.WithDisk(side, s.Of(side).disk - {p}), p, false, at)
  {
    hide Tree, Saves, CaseUnder;
  }

  // ---------------------------------------------------------------- attributes

  /** The destination takes mode and mtime of the source; contents stay, and the pair is recorded. */
  ghost predicate AttrsCopied(cfg: Config, s: State, o: Outcome, src: Side, p: Path, at: Stamp) {
    && p in s.a.disk && p in s.b.disk
    && o.error.None? && Frame(s, o.state, p, false, at)
    && At(o.state.Of(src).disk, p) == Some(s.Of(src).disk[p])
    && At(o.state.Of(src.Opposite()).disk, p) == Some(WithAttrs(s.Of(src.Opposite()).disk[p], s.Of(src).disk[p]))
    && o.state.conflicts == s.conflicts
  }

  lemma AttrsPropagated(cfg: Config, s: State, src: Side, p: Path, at: Stamp)
    requires p in s.a.disk && p in s.b.disk && Tree(s.a.disk) && Tree(s.b.disk)
    ensures AttrsCopied(cfg, s, PropagateAttrs(cfg, s, src, p), src, p, at)
    ensures PropagateAttrs(cfg, s, src, p).writes ==
      if s.a.disk[p].Symlink? <==> s.b.disk[p].Symlink? then [(src.Opposite(), p)] else []
    ensures var t := PropagateAttrs(cfg, s, src, p).state;
      p in t.a.disk && p in t.b.disk
      && Find(t.a.rows, p) == Some(EntryFor(cfg, t.a.disk[p])) && Find(t.b.rows, p) == Some(EntryFor(cfg, t.b.disk[p]))
  {
    hide Tree, Saves, EntryFor, CaseUnder;
    var dst := src.Opposite();
    var d := s.Of(dst).disk;
    var d' := SyncAttrs(s.Of(src).disk[p], d, p);
    TreeWithSameKind(d, p, WithAttrs(d[p], s.Of(src).disk[p]));
    var t := s.WithDisk(dst, d');
    assert Frame(s, t, p, false, at);
    var writes := if Attributed(s.Of(src).disk[p], d, p) then [(dst, p)] else [];
    RecordedIs(cfg, t, p, writes, at);
    FrameComposes(s, t, Recorded(cfg, t, p, writes).state, p, false, at);
  }

  // --------------------------------------------------- a file or link on both sides

  /** Agreement as reconciliation establishes it: content, and mode and mtime within tolerance. */
  predicate AgreeNodes(m: Node, n: Node) {
    && SameVersion(m, n)
    && (m.File? && n.File? ==> m.perms == n.perms && Near(m.mtime, n.mtime))
    && (m.Symlink? && n.Symlink? ==> Near(m.mtime, n.mtime))
  }

  predicate AgreeAt(s: State, x: Path) {
    (x in s.a.disk <==> x in s.b.disk) && (x in s.a.disk && x in s.b.disk ==> AgreeNodes(s.a.disk[x], s.b.disk[x]))
  }

  /** The version of one side survives: in place, beside it, or it was the version last recorded. */
  predicate VersionSafe(s: State, t: State, side: Side, p: Path, at: Stamp) {
    p in s.Of(side).disk ==>
      || (p in t.Of(side).disk && SameVersion(t.Of(side).disk[p], s.Of(side).disk[p]))
      || SavedCopy(s, t, side, p, at)
      || (p in s.Of(side).rows && Unchanged(StatOf(s.Of(side).disk[p]), s.Of(side).rows[p].AsStat()))
  }

  /** What reconciling two files or links comes to, given the state it starts from. */
  function FilesNow(cfg: Config, env: Env, s: State, p: Path): Outcome
    requires p in s.a.disk && p in s.b.disk
  {
    var a, b := s.a.disk[p], s.b.disk[p];
    ReconcileFiles(cfg, env, s, p, StatOf(a), StatOf(b), Judge(cfg, a, b))
  }

  lemma SameNodesAgree(s: State, p: Path)
    requires At(s.a.disk, p) == At(s.b.disk, p)
    ensures AgreeAt(s, p)
  {
  }

  lemma CopiedFromOneSide(cfg: Config, s: State, o: Outcome, src: Side, p: Path, at: Stamp)
    requires Copied(cfg, s, o, src, p, at)
    ensures At(o.state.a.disk, p) == At(o.state.b.disk, p) && FromOneSide(s, o.state, p)
    ensures VersionSafe(s, o.state, src, p, at)
  {
    hide EntryFor, Frame, SavedCopy, Unchanged;
  }

  /** Where no conflict is seen the destination was as recorded, or its content is the source's. */
  lemma NoConflictMeans(cfg: Config, s: State, t: State, src: Side, p: Path, at: Stamp)
    requires p in s.a.disk && p in s.b.disk && FilesAt(s, p) && DetectConflict(cfg, s, src, p) == Success(false)
    ensures VersionSafe(s, t, src.Opposite(), p, at) || !ContentDiffers(cfg, s.Of(src).disk[p], s.Of(src.Opposite()).disk[p])
  {
    hide ContentDiffers, SavedCopy, SameVersion, Unchanged;
  }

  lemma UnchangedFromOneSide(s: State, t: State, p: Path)
    requires t.a.disk == s.a.disk && t.b.disk == s.b.disk
    ensures FromOneSide(s, t, p)
  {
  }

  /** A propagation towards one side, whatever it decides. */
  lemma PropagatedFile(cfg: Config, s: State, src: Side, p: Path, at: Stamp)
    requires TwoFiles(s, p, at)
    ensures var o := PropagateFile(cfg, s, src, p, at);
      && o.error.None? && Frame(s, o.state, p, false, at)
      && (cfg.conflict != Manual ==> At(o.state.a.disk, p) == At(o.state.b.disk, p))
      && FromOneSide(s, o.state, p)
      && (cfg.conflict != NewerWins ==> VersionSafe(s, o.state, src, p, at))
      && (cfg.conflict == Preserve ==>
            VersionSafe(s, o.state, src.Opposite(), p, at) || !ContentDiffers(cfg, s.Of(src).disk[p], s.Of(src.Opposite()).disk[p]))
  {
    hide ConflictName, Tree, HasParents, Saves, Frame, NamesFree, Clean, ContentDiffers, Copied,
      VersionSafe, FromOneSide, SavedCopy, ResolveConflict, PropagateFile, DetectConflict, WritesOnce, At;
    PropagateFileResult(cfg, s, src, p, at);
    var o := PropagateFile(cfg, s, src, p, at);
    if DetectConflict(cfg, s, src, p).value {
      ResolveResult(cfg, s, src, p, at);
      ResolvedIsSafe(cfg, s, src, p, at);
      if cfg.conflict == Manual {
        UnchangedFromOneSide(s, o.state, p);
      } else {
        CopiedFromOneSide(cfg, s, o, ConflictWinner(cfg, s, src, p), p, at);
      }
    } else {
      CopiedFromOneSide(cfg, s, o, src, p, at);
      NoConflictMeans(cfg, s, o.state, src, p, at);
    }
  }

  lemma ResolvedIsSafe(cfg: Config, s: State, src: Side, p: Path, at: Stamp)
    requires TwoFiles(s, p, at)
    ensures var o := ResolveConflict(cfg, s, src, p, at);
      (cfg.conflict != NewerWins ==> VersionSafe(s, o.state, src, p, at) && VersionSafe(s, o.state, src.Opposite(), p, at))
  {
    hide ConflictName, Tree, HasParents, EntryFor, Saves, Frame, NamesFree, Clean, ResolveConflict;
    ResolveResult(cfg, s, src, p, at);
  }

  lemma DecidedOriginIsSafe(cfg: Config, s: State, p: Path, origin: Side, at: Stamp)
    requires TwoFiles(s, p, at) && cfg.conflict == Preserve
    requires var a, b := s.a.disk[p], s.b.disk[p]; var v := Judge(cfg, a, b);
      v.differs && OriginOf(s, p, v, StatOf(a), StatOf(b)) == Some(origin)
    ensures var t := PropagateFile(cfg, s, origin, p, at).state;
      VersionSafe(s, t, SideA, p, at) && VersionSafe(s, t, SideB, p, at)
  {
    hide ConflictName, Tree, HasParents, EntryFor, Saves, Frame, NamesFree, Clean, PropagateFile;
    PropagatedFile(cfg, s, origin, p, at);
    CompareSymmetric(DigestOf(cfg, s.a.disk[p]), DigestOf(cfg, s.b.disk[p]));
  }

  lemma CompareSymmetric(x: Digest, y: Digest)
    ensures Compare(x, y) == Compare(y, x)
  {
  }

  /** Two files or links, union: agreement for any policy that acts, and under preserve nothing is lost. */
  lemma DifferingReconciled(cfg: Config, env: Env, s: State, p: Path)
    requires TwoFiles(s, p, env.clock(p)) && Judge(cfg, s.a.disk[p], s.b.disk[p]).differs
    ensures var o, at := FilesNow(cfg, env, s, p), env.clock(p);
      && o.error.None? && Frame(s, o.state, p, false, at)
      && (cfg.conflict != Manual ==> AgreeAt(o.state, p)) && FromOneSide(s, o.state, p)
      && (cfg.conflict == Preserve && cfg.first == Union ==>
            VersionSafe(s, o.state, SideA, p, at) && VersionSafe(s, o.state, SideB, p, at))
  {
    var a, b, at := s.a.disk[p], s.b.disk[p], env.clock(p);
    hide ConflictName, EntryFor, Frame, OriginOf, PropagateFile, ResolveConflict, Judge, VersionSafe,
      AgreeNodes, SavedCopy, Tree, HasParents, NamesFree, Clean;
    var v := Judge(cfg, a, b);
    match cfg.first {
      case AWins => PropagatedFile(cfg, s, SideA, p, at);
      case BWins => PropagatedFile(cfg, s, SideB, p, at);
      case Union =>
        match OriginOf(s, p, v, StatOf(a), StatOf(b)) {
          case Some(origin) =>
            PropagatedFile(cfg, s, origin, p, at);
            if cfg.conflict == Preserve { DecidedOriginIsSafe(cfg, s, p, origin, at); }
          case None =>
            ResolveResult(cfg, s, NewerSide(StatOf(a), StatOf(b)), p, at);
            ResolvedIsSafe(cfg, s, NewerSide(StatOf(a), StatOf(b)), p, at);
        }
    }
    if cfg.conflict != Manual { SameNodesAgree(FilesNow(cfg, env, s, p).state, p); }
  }

  lemma AttrsMakeAgree(m: Node, n: Node)
    requires SameVersion(m, n) && !n.Special?
    ensures AgreeNodes(m, WithAttrs(n, m)) && AgreeNodes(WithAttrs(n, m), m)
    ensures SameVersion(WithAttrs(n, m), n)
  {
  }

  lemma AttrsKeepVersion(m: Node, n: Node)
    requires Carries(n)
    ensures SameVersion(WithAttrs(n, m), n)
  {
  }

  /** Equal digests: only attributes can move, and without sampling both sides then agree. */
  lemma MatchingReconciled(cfg: Config, env: Env, s: State, p: Path)
    requires TwoFiles(s, p, env.clock(p)) && !Judge(cfg, s.a.disk[p], s.b.disk[p]).differs
    ensures var o, at := FilesNow(cfg, env, s, p), env.clock(p);
      && o.error.None? && Frame(s, o.state, p, false, at)
      && (cfg.hashMax <= 0 ==> AgreeAt(o.state, p)) && FromOneSide(s, o.state, p)
      && VersionSafe(s, o.state, SideA, p, at) && VersionSafe(s, o.state, SideB, p, at)
      && o.state.conflicts == s.conflicts
  {
    hide ConflictName, Tree, HasParents, EntryFor, Saves, NamesFree, Clean, Frame, SavedCopy, PropagateAttrs;
    var a, b, at := s.a.disk[p], s.b.disk[p], env.clock(p);
    if cfg.hashMax <= 0 { FullDigestsDecide(a, b, cfg.hashMax, cfg.hashSample); }
    if AttrsDiverged(StatOf(a), StatOf(b)) {
      var src := AttrOrigin(s, p, StatOf(a), StatOf(b));
      AttrsPropagated(cfg, s, src, p, at);
      AttrsKeepVersion(s.Of(src).disk[p], s.Of(src.Opposite()).disk[p]);
      if cfg.hashMax <= 0 {
        SameVersionSymmetric(a, b);
        AttrsMakeAgree(s.Of(src).disk[p], s.Of(src.Opposite()).disk[p]);
      }
    } else {
      RecordedIs(cfg, s, p, [], at);
    }
  }

  lemma SameVersionSymmetric(m: Node, n: Node)
    ensures SameVersion(m, n) <==> SameVersion(n, m)
  {
  }

  lemma SameVersionReflexive(n: Node)
    ensures SameVersion(n, n)
  {
  }

  // ------------------------------------------------------- rows outside the path

  ghost predicate RowsElsewhereKept(s: State, t: State, p: Path) {
    forall x :: x != p ==> Find(t.a.rows, x) == Find(s.a.rows, x) && Find(t.b.rows, x) == Find(s.b.rows, x)
  }

  lemma NoRowsChange(s: State, p: Path)
    ensures RowsElsewhereKept(s, s, p)
  {
  }

  lemma RecordedRows(cfg: Config, s: State, t: State, p: Path, writes: seq<(Side, Path)>)
    requires RowsElsewhereKept(s, t, p)
    ensures RowsElsewhereKept(s, Recorded(cfg, t, p, writes).state, p)
  {
    hide EntryFor;
  }

  lemma CopyKeepsRows(s: State, src: Side, p: Path, name: Path)
    ensures CopyAcross(s, src, p).Success? ==> RowsElsewhereKept(s, CopyAcross(s, src, p).value, p)
    ensures CopyAside(s, src, p, name).Success? ==> RowsElsewhereKept(s, CopyAside(s, src, p, name).value, p)
  {
    hide CopyFile, Base;
  }

  lemma ResolveKeepsRows(cfg: Config, s: State, src: Side, p: Path, now: Stamp)
    ensures RowsElsewhereKept(s, ResolveConflict(cfg, s, src, p, now).state, p)
  {
    hide CopyAcross, CopyAside, ConflictName, DigestOf, OpenConflict, CloseConflict, Recorded;
    if p in s.a.disk && p in s.b.disk {
      var noted, dst := ConflictRecorded(cfg, s, p), src.Opposite();
      var name := ConflictName(p, dst, now);
      match cfg.conflict {
        case Manual =>
        case NewerWins =>
          var winner := ConflictWinner(cfg, s, src, p);
          CopyKeepsRows(noted, winner, p, name);
          if CopyAcross(noted, winner, p).Success? {
            RecordedRows(cfg, s, ConflictClosed(CopyAcross(noted, winner, p).value, p, "newer-wins"), p,
              [(winner.Opposite(), p)]);
          }
        case Preserve =>
          CopyKeepsRows(noted, dst, p, name);
          if CopyAside(noted, dst, p, name).Success? {
            var saved := CopyAside(noted, dst, p, name).value;
            CopyKeepsRows(saved, src, p, name);
            if CopyAcross(saved, src, p).Success? {
              RecordedRows(cfg, s, ConflictClosed(CopyAcross(saved, src, p).value, p, "preserve:" + name), p, [(dst,
                name), (dst, p)]);
            }
          }
      }
    }
  }

  lemma PropagateKeepsRows(cfg: Config, s: State, src: Side, p: Path, now: Stamp)
    ensures RowsElsewhereKept(s, PropagateFile(cfg, s, src, p, now).state, p)
    ensures RowsElsewhereKept(s, PropagateAttrs(cfg, s, src, p).state, p)
  {
    hide CopyAcross, DetectConflict, ResolveConflict, Recorded, SyncAttrs;
    ResolveKeepsRows(cfg, s, src, p, now);
    CopyKeepsRows(s, src, p, p);
    if CopyAcross(s, src, p).Success? {
      RecordedRows(cfg, s, CopyAcross(s, src, p).value, p, [(src.Opposite(), p)]);
    }
    if p in s.Of(src).disk {
      var d := s.Of(src.Opposite()).disk;
      RecordedRows(cfg, s, s.WithDisk(src.Opposite(), SyncAttrs(s.Of(src).disk[p], d, p)), p,
        if Attributed(s.Of(src).disk[p], d, p) then [(src.Opposite(), p)] else []);
    }
  }

  // ------------------------------------------------------------------ one turn

  function StatAt(d: Disk, p: Path): Option<Stat> {
    if p in d then Some(StatOf(d[p])) else None
  }

  function VerdictAt(cfg: Config, s: State, p: Path): Option<Verdict> {
    if p in s.a.disk && p in s.b.disk && Carries(s.a.disk[p]) && Carries(s.b.disk[p])
    then Some(Judge(cfg, s.a.disk[p], s.b.disk[p])) else None
  }

  /** The turn at p, deciding from a fresh look at both disks. */
  function ActNow(cfg: Config, env: Env, s: State, p: Path): Acted {
    Act(cfg, env, s, p, StatAt(s.a.disk, p), StatAt(s.b.disk, p), VerdictAt(cfg, s, p))
  }

  predicate SpecialAt(s: State, p: Path) {
    (p in s.a.disk && s.a.disk[p].Special?) || (p in s.b.disk && s.b.disk[p].Special?)
  }

  predicate BothDirs(s: State, p: Path) {
    p in s.a.disk && p in s.b.disk && s.a.disk[p].Dir? && s.b.disk[p].Dir?
  }

  predicate ClashAt(s: State, p: Path) {
    p in s.a.disk && p in s.b.disk && !SpecialAt(s, p) && s.a.disk[p].Dir? != s.b.disk[p].Dir?
  }

  /** The side on which p is a directory while the other side has nothing. */
  function LoneSide(s: State, p: Path): Option<Side> {
    if p in s.a.disk && s.a.disk[p].Dir? && p !in s.b.disk then Some(SideA)
    else if p in s.b.disk && s.b.disk[p].Dir? && p !in s.a.disk then Some(SideB)
    else None
  }

  lemma LoneDirReconciled(cfg: Config, env: Env, s: State, src: Side, p: Path)
    requires Ready(cfg, env, s, p) && LoneSide(s, p) == Some(src)
    ensures var o := ReconcileOneSided(cfg, env, s, src, p, true);
      && o.error.None? && Frame(s, o.state, p, true, env.clock(p))
      && (MeansDeleted(cfg, s, src, p) ==> Gone(o.state, p))
      && (!MeansDeleted(cfg, s, src, p) ==> DirCopied(cfg, s, o.state, src, p))
  {
    hide DeleteOneSided, PropagateDir, Frame, Gone, DirCopied, MeansDeleted, HasEntries, Visible, NamesFree,
      WalkFaithful;
    if MeansDeleted(cfg, s, src, p) {
      DirDeleted(cfg, env, s, src, p);
    } else if HasEntries(s.Of(src).disk, p) {
      FullDirCopied(cfg, s, src, p, env.clock(p));
    } else {
      EmptyDirCopied(cfg, s, src, p, env.clock(p));
    }
  }

  lemma LoneFileReconciled(cfg: Config, env: Env, s: State, src: Side, p: Path)
    requires Ready(cfg, env, s, p) && FilesAt(s, p) && p in s.Of(src).disk && p !in s.Of(src.Opposite()).disk
    ensures var o := ReconcileOneSided(cfg, env, s, src, p, false);
      && o.error.None? && Frame(s, o.state, p, false, env.clock(p))
      && At(o.state.a.disk, p) == At(o.state.b.disk, p) && FromOneSide(s, o.state, p)
  {
    hide DeleteOneSided, PropagateFile, Frame, MeansDeleted, HasParents, Tree, Excluded, Clean, NamesFree,
      WalkFaithful, EntryFor;
    if MeansDeleted(cfg, s, src, p) {
      FileDeleted(cfg, env, s, src, p);
    } else {
      PropagateFileResult(cfg, s, src, p, env.clock(p));
    }
  }

  lemma FilesReconciled(cfg: Config, env: Env, s: State, p: Path)
    requires TwoFiles(s, p, env.clock(p))
    ensures var o, at := FilesNow(cfg, env, s, p), env.clock(p);
      && o.error.None? && Frame(s, o.state, p, false, at)
      && (cfg.hashMax <= 0 && cfg.conflict != Manual ==> AgreeAt(o.state, p)) && FromOneSide(s, o.state, p)
      && (cfg.conflict == Preserve && cfg.first == Union ==>
            VersionSafe(s, o.state, SideA, p, at) && VersionSafe(s, o.state, SideB, p, at))
  {
    var v := Judge(cfg, s.a.disk[p], s.b.disk[p]);
    hide TwoFiles, Frame, FilesNow, AgreeAt, VersionSafe, Judge;
    if v.differs {
      DifferingReconciled(cfg, env, s, p);
    } else {
      MatchingReconciled(cfg, env, s, p);
    }
  }

  lemma DirsReconciled(cfg: Config, s: State, p: Path, at: Stamp)
    requires BothDirs(s, p) && Tree(s.a.disk) && Tree(s.b.disk)
    ensures var st := (StatOf(s.a.disk[p]), StatOf(s.b.disk[p]));
      var o := if AttrsDiverged(st.0, st.1) then ReconcileAttrs(cfg, s, p, st.0, st.1) else Done(s, []);
      o.error.None? && Frame(s, o.state, p, false, at) && BothDirs(o.state, p) && o.state.conflicts == s.conflicts
      && RowsElsewhereKept(s, o.state, p)
  {
    hide Tree, Saves, CaseUnder, AttrOrigin, EntryFor, Frame;
    NoChangeFrame(s, p, at);
    var a, b := StatOf(s.a.disk[p]), StatOf(s.b.disk[p]);
    AttrsPropagated(cfg, s, AttrOrigin(s, p, a, b), p, at);
  }

  lemma NoChangeFrame(s: State, p: Path, at: Stamp)
    requires Tree(s.a.disk) && Tree(s.b.disk)
    ensures Frame(s, s, p, false, at)
  {
    hide Tree, Saves, CaseUnder;
  }

  lemma ClashFrame(s: State, p: Path, at: Stamp)
    requires Tree(s.a.disk) && Tree(s.b.disk)
    ensures Frame(s, s.(conflicts := OpenConflict(s.conflicts, p, ZERO, ZERO)), p, false, at)
  {
    hide Tree, Saves, CaseUnder, DigestText;
  }

  /** A turn at a path nothing stands in the way of. */
  ghost predicate TurnOk(cfg: Config, env: Env, s: State, p: Path, acted: Acted) {
    var o := acted.outcome;
    && o.error.None? && Frame(s, o.state, p, acted.oneSidedDir, env.clock(p))
    && acted.oneSidedDir == LoneSide(s, p).Some? && acted.typeClash == ClashAt(s, p)
    && (BothDirs(s, p) ==> BothDirs(o.state, p) && RowsElsewhereKept(s, o.state, p))
    && NothingNew(s, o.state, p, acted.oneSidedDir)
  }

  predicate Present(s: State, x: Path) {
    x in s.a.disk || x in s.b.disk
  }

  /** Where the turn may write, no path and no special file appears that neither side had. */
  ghost predicate NothingNew(s: State, t: State, p: Path, wide: bool) {
    forall x :: Reached(x, p, wide) ==> (Present(t, x) ==> Present(s, x)) && (SpecialAt(t, x) ==> SpecialAt(s, x))
  }

  /** At p itself: nothing, a directory, or what one of the sides had, perhaps with other attributes. */
  predicate FromOneSide(s: State, t: State, p: Path) {
    && (p in t.a.disk ==> Present(s, p)) && (p in t.b.disk ==> Present(s, p))
    && (SpecialAt(t, p) ==> SpecialAt(s, p))
  }

  lemma NothingNewAtPath(s: State, t: State, p: Path)
    requires FromOneSide(s, t, p)
    ensures NothingNew(s, t, p, false)
  {
  }

  lemma NothingNewBelow(cfg: Config, s: State, t: State, src: Side, p: Path)
    requires LoneSide(s, p) == Some(src) && (Gone(t, p) || DirCopied(cfg, s, t, src, p))
    ensures NothingNew(s, t, p, true)
  {
    hide EntryFor, Excluded;
  }

  lemma TurnIsOk(cfg: Config, env: Env, s: State, p: Path)
    requires Ready(cfg, env, s, p)
    ensures TurnOk(cfg, env, s, p, ActNow(cfg, env, s, p))
  {
    hide ReconcileOneSided, ReconcileFiles, ReconcileAttrs, Frame, Visible, NamesFree, WalkFaithful, Tree,
      HasParents, Gone, DirCopied, OpenConflict, AttrsDiverged, MeansDeleted;
    NoChangeFrame(s, p, env.clock(p));
    var t := ActNow(cfg, env, s, p).outcome.state;
    if SpecialAt(s, p) {
    } else if LoneSide(s, p).Some? {
      LoneDirReconciled(cfg, env, s, LoneSide(s, p).value, p);
      NothingNewBelow(cfg, s, t, LoneSide(s, p).value, p);
    } else if p in s.a.disk && p !in s.b.disk {
      LoneFileReconciled(cfg, env, s, SideA, p);
    } else if p in s.b.disk && p !in s.a.disk {
      LoneFileReconciled(cfg, env, s, SideB, p);
    } else if BothDirs(s, p) {
      DirsReconciled(cfg, s, p, env.clock(p));
    } else if ClashAt(s, p) {
      ClashFrame(s, p, env.clock(p));
    } else if p in s.a.disk {
      TwoFilesReady(cfg, env, s, p);
      FilesReconciled(cfg, env, s, p);
    }
    if LoneSide(s, p).None? { NothingNewAtPath(s, t, p); }
  }

  lemma TwoFilesReady(cfg: Config, env: Env, s: State, p: Path)
    requires Ready(cfg, env, s, p) && FilesAt(s, p) && p in s.a.disk && p in s.b.disk
    ensures TwoFiles(s, p, env.clock(p))
  {
  }

  /** Without sampling, special files or type clashes, a turn leaves its path, and a settled subtree, in agreement. */
  lemma TurnAgrees(cfg: Config, env: Env, s: State, p: Path)
    requires Ready(cfg, env, s, p) && !SpecialAt(s, p) && !ClashAt(s, p)
    requires cfg.hashMax <= 0 && cfg.conflict != Manual
    ensures var acted := ActNow(cfg, env, s, p);
      AgreeAt(acted.outcome.state, p)
      && (acted.oneSidedDir ==> forall x :: Under(x, p) ==> EqualAt(acted.outcome.state, x))
  {
    hide ReconcileOneSided, ReconcileFiles, ReconcileAttrs, Frame, Visible, NamesFree, WalkFaithful, Tree,
      HasParents, OpenConflict, AttrsDiverged, MeansDeleted, EntryFor, Excluded;
    if LoneSide(s, p).Some? {
      LoneDirReconciled(cfg, env, s, LoneSide(s, p).value, p);
    } else if p in s.a.disk && p !in s.b.disk {
      LoneFileReconciled(cfg, env, s, SideA, p);
    } else if p in s.b.disk && p !in s.a.disk {
      LoneFileReconciled(cfg, env, s, SideB, p);
    } else if BothDirs(s, p) {
      DirsReconciled(cfg, s, p, env.clock(p));
    } else if p in s.a.disk {
      TwoFilesReady(cfg, env, s, p);
      FilesReconciled(cfg, env, s, p);
    }
  }

  /** Under union and preserve, a turn at a file on both sides loses neither version. */
  lemma TurnIsSafe(cfg: Config, env: Env, s: State, p: Path)
    requires Ready(cfg, env, s, p) && FilesAt(s, p) && p in s.a.disk && p in s.b.disk
    requires cfg.first == Union && cfg.conflict == Preserve
    ensures var t := ActNow(cfg, env, s, p).outcome.state;
      VersionSafe(s, t, SideA, p, env.clock(p)) && VersionSafe(s, t, SideB, p, env.clock(p))
  {
    hide ReconcileFiles, Frame, Visible, NamesFree, WalkFaithful, Tree, HasParents, VersionSafe, AgreeAt;
    TwoFilesReady(cfg, env, s, p);
    FilesReconciled(cfg, env, s, p);
  }

  // ---------------------------------------------------------------- what a turn forgets

  /** The side that alone has something at q, other than a special file. */
  function LoneOn(s: State, q: Path): Option<Side> {
    if q in s.a.disk && q !in s.b.disk && !s.a.disk[q].Special? then Some(SideA)
    else if q in s.b.disk && q !in s.a.disk && !s.b.disk[q].Special? then Some(SideB)
    else None
  }

  /** A turn at q removes what one side alone has there. */
  predicate Removes(cfg: Config, s: State, q: Path) {
    LoneOn(s, q).Some? && MeansDeleted(cfg, s, LoneOn(s, q).value, q)
  }

  /** Rows away from q: kept, except that a removal forgets those q covers up to letter case. */
  ghost predicate RowsAfter(cfg: Config, s: State, t: State, q: Path, x: Path) {
    && Find(t.a.rows, x) == (if Removes(cfg, s, q) && CaseUnder(x, q) then None else Find(s.a.rows, x))
    && Find(t.b.rows, x) == (if Removes(cfg, s, q) && CaseUnder(x, q) then None else Find(s.b.rows, x))
  }

  lemma DirKeepsRows(cfg: Config, s: State, src: Side, q: Path, x: Path)
    requires !AtOrUnder(x, q)
    ensures var t := PropagateDir(cfg, s, src, q).state;
      Find(t.a.rows, x) == Find(s.a.rows, x) && Find(t.b.rows, x) == Find(s.b.rows, x)
  {
    hide CopyTree, Mkdir, HasEntries, RecordSubtree, RecordPair, Under;
    var from, to := s.Of(src).disk, s.Of(src.Opposite()).disk;
    if q in from && from[q].Dir? {
      if !HasEntries(from, q) {
        var made := Mkdir(StatOf(from[q]).perms, to, q);
        if made.Success? { PairKeepsRows(cfg, s, s.WithDisk(src.Opposite(), made.value), q, x); }
      } else if CopyTree(from, q, to, q).Success? {
        PairKeepsRows(cfg, s, s.WithDisk(src.Opposite(), CopyTree(from, q, to, q).value), q, x);
      }
    }
  }

  /** Recording a path, and all below it, leaves the rows of other paths alone. */
  lemma PairKeepsRows(cfg: Config, s: State, t: State, q: Path, x: Path)
    requires t.a.rows == s.a.rows && t.b.rows == s.b.rows && !AtOrUnder(x, q)
    ensures RecordPair(cfg, t, q).Success? ==>
      var u := RecordPair(cfg, t, q).value;
      && Find(u.a.rows, x) == Find(s.a.rows, x) && Find(u.b.rows, x) == Find(s.b.rows, x)
      && Find(RecordSubtree(cfg, u, q).a.rows, x) == Find(s.a.rows, x)
      && Find(RecordSubtree(cfg, u, q).b.rows, x) == Find(s.b.rows, x)
  {
    hide EntryFor, Excluded, Under;
  }

  lemma ForgottenRows(s: State, q: Path, x: Path)
    requires x != q
    ensures var t := ForgetSubtree(s, q);
      && Find(t.a.rows, x) == (if CaseUnder(x, q) then None else Find(s.a.rows, x))
      && Find(t.b.rows, x) == (if CaseUnder(x, q) then None else Find(s.b.rows, x))
  {
    hide CaseUnder;
  }

  lemma RemovalKeepsRows(cfg: Config, env: Env, s: State, side: Side, q: Path)
    ensures var t := RemoveDir(cfg, env, s, side, q).state; t.a.rows == s.a.rows && t.b.rows == s.b.rows
  {
    hide PreservedDirName, EmptiedDisk, SetsAside, OpenConflict, CloseConflict;
  }

  lemma DeletionForgets(cfg: Config, env: Env, s: State, present: Side, q: Path, isDir: bool, x: Path)
    requires x != q && DeleteOneSided(cfg, env, s, present, q, isDir).error.None?
    ensures var t := DeleteOneSided(cfg, env, s, present, q, isDir).state;
      && Find(t.a.rows, x) == (if CaseUnder(x, q) then None else Find(s.a.rows, x))
      && Find(t.b.rows, x) == (if CaseUnder(x, q) then None else Find(s.b.rows, x))
  {
    hide RemoveDir, Remove, ForgetSubtree, CaseUnder;
    if isDir {
      RemovalKeepsRows(cfg, env, s, present, q);
      ForgottenRows(RemoveDir(cfg, env, s, present, q).state, q, x);
    } else {
      var d := Remove(s.Of(present).disk, q, false).value;
      ForgottenRows(s.WithDisk(present, d), q, x);
    }
  }

  lemma FilesKeepRows(cfg: Config, env: Env, s: State, q: Path, stA: Stat, stB: Stat, v: Verdict)
    ensures RowsElsewhereKept(s, ReconcileFiles(cfg, env, s, q, stA, stB, v).state, q)
  {
    hide RowsElsewhereKept, PropagateFile, ResolveConflict, PropagateAttrs, OriginOf, AttrsDiverged, Recorded,
      AttrOrigin;
    forall src: Side ensures RowsElsewhereKept(s, PropagateFile(cfg, s, src, q, env.clock(q)).state, q)
      && RowsElsewhereKept(s, PropagateAttrs(cfg, s, src, q).state, q)
    {
      PropagateKeepsRows(cfg, s, src, q, env.clock(q));
    }
    ResolveKeepsRows(cfg, s, NewerSide(stA, stB), q, env.clock(q));
    NoRowsChange(s, q);
    RecordedRows(cfg, s, s, q, []);
  }

  lemma ElsewhereMeans(cfg: Config, s: State, t: State, q: Path, x: Path)
    requires RowsElsewhereKept(s, t, q) && x != q && !Removes(cfg, s, q)
    ensures RowsAfter(cfg, s, t, q, x)
  {
  }

  lemma LoneTurnRows(cfg: Config, env: Env, s: State, q: Path, x: Path)
    requires Ready(cfg, env, s, q) && LoneOn(s, q).Some? && !AtOrUnder(x, q)
    ensures RowsAfter(cfg, s, ActNow(cfg, env, s, q).outcome.state, q, x)
  {
    hide DeleteOneSided, PropagateFile, PropagateDir, Frame, MeansDeleted, NamesFree, WalkFaithful, Excluded, Clean,
      CaseUnder, Under, Tree, HasParents;
    var src := LoneOn(s, q).value;
    var isDir := s.Of(src).disk[q].Dir?;
    assert ActNow(cfg, env, s, q).outcome == ReconcileOneSided(cfg, env, s, src, q, isDir);
    if MeansDeleted(cfg, s, src, q) {
      if isDir { DirDeletedAt(cfg, env, s, src, q); } else { FileDeleted(cfg, env, s, src, q); }
      DeletionForgets(cfg, env, s, src, q, isDir, x);
    } else if isDir {
      DirKeepsRows(cfg, s, src, q, x);
    } else {
      PropagateKeepsRows(cfg, s, src, q, env.clock(q));
    }
  }

  lemma DirDeletedAt(cfg: Config, env: Env, s: State, src: Side, q: Path)
    requires q in s.Of(src).disk && s.Of(src).disk[q].Dir? && LoneOn(s, q) == Some(src)
    requires Ready(cfg, env, s, q)
    ensures DeleteOneSided(cfg, env, s, src, q, true).error.None?
  {
    hide DeleteOneSided, NamesFree, WalkFaithful, Visible, Frame, Gone;
    DirDeleted(cfg, env, s, src, q);
  }

  /** What a turn does to the rows of any other path that is not below a lone directory there. */
  lemma TurnRows(cfg: Config, env: Env, s: State, q: Path, x: Path)
    requires Ready(cfg, env, s, q) && x != q && (LoneOn(s, q).Some? ==> !Under(x, q))
    ensures RowsAfter(cfg, s, ActNow(cfg, env, s, q).outcome.state, q, x)
  {
    hide ReconcileFiles, ReconcileOneSided, ReconcileAttrs, Frame, Visible, NamesFree, WalkFaithful, HasParents,
      RowsAfter, Tree, Under, AttrsDiverged, OpenConflict, RowsElsewhereKept, Judge;
    var t := ActNow(cfg, env, s, q).outcome.state;
    NoRowsChange(s, q);
    if LoneOn(s, q).Some? {
      LoneTurnRows(cfg, env, s, q, x);
    } else {
      if SpecialAt(s, q) {
      } else if BothDirs(s, q) {
        ReadyTrees(cfg, env, s, q);
        DirsReconciled(cfg, s, q, env.clock(q));
      } else if ClashAt(s, q) {
        ClashKeepsRows(s, q);
      } else if q in s.a.disk && q in s.b.disk {
        var a, b := s.a.disk[q], s.b.disk[q];
        FilesKeepRows(cfg, env, s, q, StatOf(a), StatOf(b), Judge(cfg, a, b));
      }
      ElsewhereMeans(cfg, s, t, q, x);
    }
  }

  lemma ClashKeepsRows(s: State, q: Path)
    ensures RowsElsewhereKept(s, s.(conflicts := OpenConflict(s.conflicts, q, ZERO, ZERO)), q)
  {
  }

  lemma ReadyTrees(cfg: Config, env: Env, s: State, p: Path)
    requires Ready(cfg, env, s, p)
    ensures Tree(s.a.disk) && Tree(s.b.disk)
  {
  }
}
