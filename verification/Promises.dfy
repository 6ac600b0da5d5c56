// What a caller of an engine operation gets out of it, where nothing is in the way: the guarantees the
// methods of the engine carry, each about the state before, the state after and the error.

module Promises {
  import opened Actions
  import opened Digests
  import opened Disks
  import opened EventRuns
  import opened Events
  import opened Frames
  import opened Locality
  import opened Names
  import opened Nodes
  import opened Options
  import opened Paths
  import opened Policies
  import opened Removal
  import opened Resolution
  import opened Settings
  import opened Store
  import opened Sync

  // ---------------------------------------------------------------- recording

  /** A pair just recorded is no conflict from either side, and a settled one if its digests agree. */
  ghost predicate PairKnown(cfg: Config, s: State, t: State, err: Option<Error>, p: Path) {
    && (err.None? <==> p in s.a.disk && p in s.b.disk)
    && (err.None? ==>
          && DetectConflict(cfg, t, SideA, p) == Success(false) && DetectConflict(cfg, t, SideB, p) == Success(false)
          && (Carries(s.a.disk[p]) && Carries(s.b.disk[p]) && SameDigests(cfg, s, p) ==> Settled(cfg, t, p)))
  }

  lemma RecordingPromise(cfg: Config, s: State, p: Path, writes: seq<(Side, Path)>)
    ensures PairKnown(cfg, s, Recorded(cfg, s, p, writes).state, Recorded(cfg, s, p, writes).error, p)
  {
    hide DigestOf, Stored, Compare;
  }

  // ---------------------------------------------------------------- conflicts

  /** With full digests: two files are in conflict exactly if they differ and the destination left its record. */
  ghost predicate ConflictMeans(cfg: Config, s: State, src: Side, p: Path, r: Result<bool, Error>) {
    p in s.a.disk && p in s.b.disk && FilesAt(s, p) && cfg.hashMax <= 0 ==>
      var to := s.Of(src.Opposite());
      r == Success(!SameVersion(s.a.disk[p], s.b.disk[p])
                   && !(p in to.rows && Unchanged(StatOf(to.disk[p]), to.rows[p].AsStat())))
  }

  lemma ConflictPromise(cfg: Config, s: State, src: Side, p: Path)
    ensures ConflictMeans(cfg, s, src, p, DetectConflict(cfg, s, src, p))
  {
    hide Compute, SameVersion, Unchanged;
    if p in s.a.disk && p in s.b.disk && FilesAt(s, p) && cfg.hashMax <= 0 {
      FullDigestsDecide(s.Of(src).disk[p], s.Of(src.Opposite()).disk[p], cfg.hashMax, cfg.hashSample);
      SameVersionSymmetric(s.a.disk[p], s.b.disk[p]);
    }
  }

  /** The winner of the policy is on both sides and settled, the other version beside it, the conflict list says so. */
  ghost predicate ConflictResolved(cfg: Config, s: State, t: State, err: Option<Error>, src: Side, p: Path, at: Stamp) {
    TwoFiles(s, p, at) ==>
      && err.None? && Frame(s, t, p, false, at)
      && (cfg.conflict == Manual ==> t.a.disk == s.a.disk && t.b.disk == s.b.disk)
      && (cfg.conflict != Manual ==>
            && At(t.a.disk, p) == At(t.b.disk, p) == Some(s.Of(ConflictWinner(cfg, s, src, p)).disk[p])
            && Settled(cfg, t, p))
      && (cfg.conflict == Preserve ==> SavedCopy(s, t, src.Opposite(), p, at))
      && Sync.Find(t.conflicts, p) == Some(Conflict(
           DigestText(DigestOf(cfg, s.a.disk[p])), DigestText(DigestOf(cfg, s.b.disk[p])), Resolved(cfg, p, src.Opposite(), at)))
  }

  lemma ResolvingPromise(cfg: Config, s: State, src: Side, p: Path, at: Stamp)
    ensures var o := ResolveConflict(cfg, s, src, p, at); ConflictResolved(cfg, s, o.state, o.error, src, p, at)
  {
    hide ResolveConflict, ConflictName, Frame, Settled, DigestOf, DigestText, Resolved, SavedCopy, ConflictWinner,
      TwoFiles;
    if TwoFiles(s, p, at) {
      TwoNodes(s, p, at);
      ResolveResult(cfg, s, src, p, at);
      ConflictRowSays(cfg, s, src, p, at);
      if cfg.conflict != Manual {
        var winner, o := ConflictWinner(cfg, s, src, p), ResolveConflict(cfg, s, src, p, at);
        CopiedNodes(cfg, s, o, winner, p, at);
        BothCarry(s, p, at);
        CopiedSettles(cfg, s, o, winner, p, at);
      }
    }
  }

  lemma BothCarry(s: State, p: Path, at: Stamp)
    requires TwoFiles(s, p, at)
    ensures p in s.a.disk && p in s.b.disk && Carries(s.a.disk[p]) && Carries(s.b.disk[p])
  {
  }

  // -------------------------------------------------------------- propagation

  /** A file that the other side lacks, in a place it has. */
  ghost predicate LoneFile(s: State, src: Side, p: Path) {
    && p in s.Of(src).disk && Carries(s.Of(src).disk[p]) && p !in s.Of(src.Opposite()).disk
    && Tree(s.a.disk) && Tree(s.b.disk) && HasParents(s.Of(src.Opposite()).disk, p)
  }

  /** A new file arrives as it is; of two versions none is lost under preserve, unless it was the recorded one. */
  ghost predicate FileArrived(cfg: Config, s: State, t: State, err: Option<Error>, src: Side, p: Path, at: Stamp) {
    && (LoneFile(s, src, p) ==>
          err.None? && At(t.a.disk, p) == At(t.b.disk, p) == Some(s.Of(src).disk[p]) && Settled(cfg, t, p))
    && (TwoFiles(s, p, at) ==>
          && err.None? && Frame(s, t, p, false, at)
          && (cfg.conflict != Manual ==> At(t.a.disk, p) == At(t.b.disk, p))
          && (cfg.conflict != NewerWins ==> VersionSafe(s, t, src, p, at))
          && (cfg.conflict == Preserve ==>
                || VersionSafe(s, t, src.Opposite(), p, at)
                || !ContentDiffers(cfg, s.Of(src).disk[p], s.Of(src.Opposite()).disk[p])))
  }

  lemma FilePromise(cfg: Config, s: State, src: Side, p: Path, at: Stamp)
    ensures var o := PropagateFile(cfg, s, src, p, at); FileArrived(cfg, s, o.state, o.error, src, p, at)
  {
    hide PropagateFile, Frame, Settled, VersionSafe, TwoFiles, ContentDiffers, LoneFile;
    if TwoFiles(s, p, at) {
      BothCarry(s, p, at);
      PropagatedFile(cfg, s, src, p, at);
    }
    if LoneFile(s, src, p) { LoneFileCopied(cfg, s, src, p, at); }
  }

  lemma LoneFileCopied(cfg: Config, s: State, src: Side, p: Path, at: Stamp)
    requires LoneFile(s, src, p)
    ensures var o := PropagateFile(cfg, s, src, p, at);
      p in s.Of(src).disk && o.error.None? && At(o.state.a.disk, p) == At(o.state.b.disk, p) == Some(s.Of(src).disk[p])
      && Settled(cfg, o.state, p)
  {
    hide CopyAcross, ResolveConflict, Recorded, Tree, HasParents, Settled, Frame, EntryFor;
    NoConflictWithNothing(cfg, s, src, p);
    hide DetectConflict;
    PlainCopy(cfg, s, src, p, [(src.Opposite(), p)], at);
    var o := PropagateFile(cfg, s, src, p, at);
    CopiedNodes(cfg, s, o, src, p, at);
    CopiedSettles(cfg, s, o, src, p, at);
  }

  /** A new directory arrives with all below it, recorded. */
  ghost predicate DirArrived(cfg: Config, s: State, t: State, err: Option<Error>, src: Side, p: Path) {
    LoneDir(s, src, p) ==> err.None? && DirCopied(cfg, s, t, src, p)
  }

  lemma DirPromise(cfg: Config, s: State, src: Side, p: Path, at: Stamp)
    ensures var o := PropagateDir(cfg, s, src, p); DirArrived(cfg, s, o.state, o.error, src, p)
  {
    hide PropagateDir, DirCopied, Frame, LoneDir, HasEntries;
    if LoneDir(s, src, p) {
      if HasEntries(s.Of(src).disk, p) {
        FullDirCopied(cfg, s, src, p, at);
      } else {
        EmptyDirCopied(cfg, s, src, p, at);
      }
    }
  }

  /** One version on both sides: afterwards its attributes agree as well, and the version is the same. */
  ghost predicate AttrsAgree(s: State, t: State, err: Option<Error>, src: Side, p: Path) {
    p in s.a.disk && p in s.b.disk && Tree(s.a.disk) && Tree(s.b.disk)
    && SameVersion(s.a.disk[p], s.b.disk[p]) && !SpecialAt(s, p) ==>
      && err.None? && AgreeAt(t, p) && t.conflicts == s.conflicts
      && At(t.Of(src).disk, p) == At(s.Of(src).disk, p) && p in t.Of(src.Opposite()).disk
      && SameVersion(t.Of(src.Opposite()).disk[p], s.Of(src.Opposite()).disk[p])
  }

  lemma AttrsPromise(cfg: Config, s: State, src: Side, p: Path, at: Stamp)
    ensures var o := PropagateAttrs(cfg, s, src, p); AttrsAgree(s, o.state, o.error, src, p)
  {
    hide PropagateAttrs, Tree, Frame, EntryFor, AgreeNodes, WithAttrs;
    if p in s.a.disk && p in s.b.disk && Tree(s.a.disk) && Tree(s.b.disk)
       && SameVersion(s.a.disk[p], s.b.disk[p]) && !SpecialAt(s, p) {
      var m, n := s.Of(src).disk[p], s.Of(src.Opposite()).disk[p];
      SameVersionSymmetric(s.a.disk[p], s.b.disk[p]);
      AttrsPropagated(cfg, s, src, p, at);
      AttrsMakeAgree(m, n);
    }
  }

  /** A removed directory leaves the other side, what nobody vouches for set aside; a removed file simply leaves. */
  ghost predicate RemovalFollowed(cfg: Config, env: Env, s: State, t: State, err: Option<Error>, src: Side, p: Path,
        isDir: bool) {
    var dst := src.Opposite();
    && (isDir && Clean(p) && Removable(env, s.Of(dst).disk, p) ==> err.None? && DirGone(cfg, env, s, t, dst, p))
    && (!isDir && FilesAt(s, p) && Tree(s.Of(dst).disk) ==>
          && err.None? && t.Of(dst).disk == s.Of(dst).disk - {p} && t.Of(src).disk == s.Of(src).disk
          && p !in t.a.rows && p !in t.b.rows && RowsElsewhereKept(s, t, p))
  }

  lemma RemovalPromise(cfg: Config, env: Env, s: State, src: Side, p: Path, isDir: bool)
    ensures var o := PropagateDelete(cfg, env, s, src, p, isDir);
      RemovalFollowed(cfg, env, s, o.state, o.error, src, p, isDir)
  {
    hide Clean, Removable, DirGone, Tree, HasEntries, RemoveDir;
    var dst := src.Opposite();
    if isDir {
      if Clean(p) && Removable(env, s.Of(dst).disk, p) { DirDeletionDone(cfg, env, s, src, p); }
    } else if FilesAt(s, p) && Tree(s.Of(dst).disk) {
      NothingBelowNothing(s.Of(dst).disk, p);
    }
  }

  // ---------------------------------------------------------------- events

  /** At a settled path nothing happens; whatever is written leaves a settled path. */
  ghost predicate EventSettles(cfg: Config, env: Env, s: State, t: State, err: Option<Error>, ev: Event, wrote: bool) {
    SavedExcluded(cfg) && EventReady(cfg, env, s, ev) && Tree(s.a.disk) && Tree(s.b.disk) ==>
      && (Settled(cfg, s, ev.path) ==> t == s && err.None? && !wrote)
      && (wrote ==> Settled(cfg, t, ev.path))
      && (!wrote ==> t.a.disk == s.a.disk && t.b.disk == s.b.disk)
  }

  lemma EventPromise(cfg: Config, env: Env, s: State, ev: Event)
    requires ev.kind != Move
    ensures var o := Process(cfg, env, s, ev); EventSettles(cfg, env, s, o.state, o.error, ev, o.writes != [])
  {
    hide Process, EventReady, Settled, Tree, Ground, Frame, RowsElsewhereKept, WritesOnce, GroundedFrom;
    if SavedExcluded(cfg) && EventReady(cfg, env, s, ev) && Tree(s.a.disk) && Tree(s.b.disk) {
      EventHandled(cfg, env, s, ev);
      if Settled(cfg, s, ev.path) {
        ReadyKind(cfg, env, s, ev);
        SettledIsNoOp(cfg, env, s, ev);
      }
    }
  }

  lemma ReadyKind(cfg: Config, env: Env, s: State, ev: Event)
    requires EventReady(cfg, env, s, ev)
    ensures ev.kind in {Create, Modify, Attrib}
  {
    hide Settled, Visible, NamesFree, SameDigests;
  }

  // ------------------------------------------------------------- one side only

  /** Removing the one side's directory or file leaves neither side with anything there. */
  ghost predicate OneSideCleared(cfg: Config, env: Env, s: State, t: State, err: Option<Error>, present: Side,
        p: Path, isDir: bool) {
    && (isDir && Ready(cfg, env, s, p) && LoneSide(s, p) == Some(present) ==>
          && err.None? && Gone(t, p)
          && RemovedKeepingUnknown(cfg, s.Of(present), t.Of(present).disk, p, PreservedDirName(p, present, env.clock(p))))
    && (!isDir && Ready(cfg, env, s, p) && FilesAt(s, p) && p !in s.Of(present.Opposite()).disk ==>
          err.None? && Gone(t, p))
  }

  lemma ClearingPromise(cfg: Config, env: Env, s: State, present: Side, p: Path, isDir: bool)
    ensures var o := DeleteOneSided(cfg, env, s, present, p, isDir);
      OneSideCleared(cfg, env, s, o.state, o.error, present, p, isDir)
  {
    hide DeleteOneSided, Ready, Gone, RemovedKeepingUnknown, LoneSide, PreservedDirName, FilesAt;
    if isDir && Ready(cfg, env, s, p) && LoneSide(s, p) == Some(present) {
      LoneSideIsDir(cfg, env, s, present, p);
      NoFrame(cfg, env, s, present, p);
      RemovalDiskOf(cfg, env, s, present, p);
    }
    if !isDir && Ready(cfg, env, s, p) && FilesAt(s, p) && p !in s.Of(present.Opposite()).disk {
      FileCleared(cfg, env, s, present, p);
    }
  }

  lemma LoneSideIsDir(cfg: Config, env: Env, s: State, src: Side, p: Path)
    requires Ready(cfg, env, s, p) && LoneSide(s, p) == Some(src)
    ensures LoneDir(s, src, p) && Clean(p) && Removable(env, s.Of(src).disk, p)
  {
    hide Tree, NamesFree, WalkFaithful, Clean;
  }

  lemma NoFrame(cfg: Config, env: Env, s: State, present: Side, p: Path)
    requires Ready(cfg, env, s, p) && LoneDir(s, present, p)
    ensures var o := DeleteOneSided(cfg, env, s, present, p, true); o.error.None? && Gone(o.state, p)
  {
    hide DeleteOneSided, Ready, Gone, LoneDir, Frame;
    DirDeleted(cfg, env, s, present, p);
  }

  lemma RemovalDiskOf(cfg: Config, env: Env, s: State, present: Side, p: Path)
    requires Clean(p) && Removable(env, s.Of(present).disk, p)
    ensures RemovedKeepingUnknown(cfg, s.Of(present), DeleteOneSided(cfg, env, s, present, p,
      true).state.Of(present).disk, p,
              PreservedDirName(p, present, env.clock(p)))
  {
    hide RemoveDir, Clean, Removable, RemovedKeepingUnknown, PreservedDirName;
    RemovalDisk(cfg, env, s, present, p);
    RemovalEnds(cfg, env, s, present, p);
  }

  lemma FileCleared(cfg: Config, env: Env, s: State, present: Side, p: Path)
    requires Ready(cfg, env, s, p) && FilesAt(s, p) && p !in s.Of(present.Opposite()).disk
    ensures var o := DeleteOneSided(cfg, env, s, present, p, false); o.error.None? && Gone(o.state, p)
  {
    hide DeleteOneSided, Ready, Frame, FilesAt;
    FileDeleted(cfg, env, s, present, p);
    var t := DeleteOneSided(cfg, env, s, present, p, false).state;
    FrameTrees(s, t, p, env.clock(p));
    NothingBelowNothing(t.a.disk, p);
    NothingBelowNothing(t.b.disk, p);
  }

  lemma FrameTrees(s: State, t: State, p: Path, at: Stamp)
    requires Frame(s, t, p, false, at)
    ensures Tree(t.a.disk) && Tree(t.b.disk)
  {
    FrameKeepsTrees(s, t, p, false, at);
  }

  /** What one side alone has is gone from both, or the same on both, as policy and table say. */
  ghost predicate OneSidedDecided(cfg: Config, env: Env, s: State, t: State, err: Option<Error>, present: Side,
        p: Path, isDir: bool) {
    && (isDir && Ready(cfg, env, s, p) && LoneSide(s, p) == Some(present) ==>
          && err.None?
          && (if MeansDeleted(cfg, s, present, p) then Gone(t, p) else DirCopied(cfg, s, t, present, p)))
    && (!isDir && Ready(cfg, env, s, p) && FilesAt(s, p) && p in s.Of(present).disk && p !in s.Of(present.Opposite()).disk ==>
          && err.None?
          && At(t.a.disk, p) == At(t.b.disk, p) == if MeansDeleted(cfg, s, present, p) then None else Some(s.Of(present).disk[p]))
  }

  lemma OneSidedPromise(cfg: Config, env: Env, s: State, present: Side, p: Path, isDir: bool)
    ensures var o := ReconcileOneSided(cfg, env, s, present, p, isDir);
      OneSidedDecided(cfg, env, s, o.state, o.error, present, p, isDir)
  {
    hide ReconcileOneSided, Ready, Gone, DirCopied, LoneSide, FilesAt, Frame;
    hide MeansDeleted;
    if isDir && Ready(cfg, env, s, p) && LoneSide(s, p) == Some(present) {
      LoneDirReconciled(cfg, env, s, present, p);
    }
    if !isDir && Ready(cfg, env, s, p) && FilesAt(s, p) && p in s.Of(present).disk && p !in s.Of(present.Opposite()).disk {
      LoneFileReconciled(cfg, env, s, present, p);
      LoneFileTurn(cfg, env, s, present, p);
      LoneFileActs(cfg, env, s, present, p);
    }
  }

  lemma LoneFileActs(cfg: Config, env: Env, s: State, present: Side, p: Path)
    requires FilesAt(s, p) && p in s.Of(present).disk && p !in s.Of(present.Opposite()).disk
    ensures ActNow(cfg, env, s, p).outcome == ReconcileOneSided(cfg, env, s, present, p, false)
  {
    hide ReconcileOneSided;
  }

  // ------------------------------------------------------------------ both sides

  /** Attributes of one version on both sides: they agree afterwards, and neither version changes. */
  ghost predicate AttrsReconciled(s: State, t: State, err: Option<Error>, p: Path) {
    p in s.a.disk && p in s.b.disk && Tree(s.a.disk) && Tree(s.b.disk)
    && SameVersion(s.a.disk[p], s.b.disk[p]) && !SpecialAt(s, p) ==>
      && err.None? && AgreeAt(t, p) && t.conflicts == s.conflicts
      && p in t.a.disk && SameVersion(t.a.disk[p], s.a.disk[p])
      && p in t.b.disk && SameVersion(t.b.disk[p], s.b.disk[p])
  }

  lemma AttrsReconciledPromise(cfg: Config, env: Env, s: State, p: Path, stA: Stat, stB: Stat)
    ensures var o := ReconcileAttrs(cfg, s, p, stA, stB); AttrsReconciled(s, o.state, o.error, p)
  {
    hide PropagateAttrs, AttrOrigin, Tree, AgreeNodes, SameVersion;
    var src := AttrOrigin(s, p, stA, stB);
    AttrsPromise(cfg, s, src, p, env.clock(p));
    if p in s.a.disk && p in s.b.disk {
      SameVersionReflexive(s.a.disk[p]);
      SameVersionReflexive(s.b.disk[p]);
    }
  }

  /** Two files: agreement with full digests and a policy that acts, and under union and preserve no version lost. */
  ghost predicate PairReconciled(cfg: Config, s: State, t: State, err: Option<Error>, p: Path, at: Stamp) {
    && err.None? && Frame(s, t, p, false, at)
    && (cfg.hashMax <= 0 && cfg.conflict != Manual ==> AgreeAt(t, p))
    && (cfg.conflict == Preserve && cfg.first == Union ==>
          VersionSafe(s, t, SideA, p, at) && VersionSafe(s, t, SideB, p, at))
  }

  /** Two files, and the verdict and the two stats are what the disks show. */
  ghost predicate TruePair(cfg: Config, s: State, p: Path, stA: Stat, stB: Stat, v: Verdict, at: Stamp) {
    TwoFiles(s, p, at) && stA == StatOf(s.a.disk[p]) && stB == StatOf(s.b.disk[p]) && v == Judge(cfg, s.a.disk[p], s.b.disk[p])
  }

  lemma PairPromise(cfg: Config, env: Env, s: State, p: Path, stA: Stat, stB: Stat, v: Verdict)
    requires TruePair(cfg, s, p, stA, stB, v, env.clock(p))
    ensures var o := ReconcileFiles(cfg, env, s, p, stA, stB, v);
      PairReconciled(cfg, s, o.state, o.error, p, env.clock(p))
  {
    hide ReconcileFiles, TwoFiles, Judge, Frame, AgreeAt, VersionSafe, FromOneSide;
    FilesReconciled(cfg, env, s, p);
  }

  /** The verdict and the two stats are what the disks show. */
  ghost predicate TrueAt(cfg: Config, s: State, p: Path, stA: Option<Stat>, stB: Option<Stat>, v: Option<Verdict>) {
    stA == StatAt(s.a.disk, p) && stB == StatAt(s.b.disk, p) && v == VerdictAt(cfg, s, p)
  }

  /** A turn stays within its path, below it only where it settles a directory one side lacked, and leaves agreement. */
  ghost predicate TurnDone(cfg: Config, env: Env, s: State, t: State, p: Path) {
    && Frame(s, t, p, LoneSide(s, p).Some?, env.clock(p))
    && (cfg.hashMax <= 0 && cfg.conflict != Manual && !SpecialAt(s, p) && !ClashAt(s, p) ==> AgreeAt(t, p))
  }

  lemma ActPromise(cfg: Config, env: Env, s: State, p: Path, stA: Option<Stat>, stB: Option<Stat>, v: Option<Verdict>)
    requires Ready(cfg, env, s, p) && TrueAt(cfg, s, p, stA, stB, v)
    ensures var acted := Act(cfg, env, s, p, stA, stB, v);
      acted.outcome.error.None? && TurnDone(cfg, env, s, acted.outcome.state, p)
      && acted.typeClash == ClashAt(s, p) && acted.oneSidedDir == LoneSide(s, p).Some?
  {
    hide Act, Ready, Frame, AgreeAt, SpecialAt, ClashAt, LoneSide, StatAt, VerdictAt, NothingNew, RowsElsewhereKept,
      BothDirs;
    TurnIsOk(cfg, env, s, p);
    if cfg.hashMax <= 0 && cfg.conflict != Manual && !SpecialAt(s, p) && !ClashAt(s, p) { TurnAgrees(cfg, env, s, p); }
  }

  /** One turn of the loop, where the survey is still true of the path. */
  ghost predicate TurnFollowed(cfg: Config, env: Env, s: State, t: State, handled: seq<Path>, grown: seq<Path>,
        survey: Survey, p: Path) {
    && (UnderAny(p, handled) ==> t == s && grown == handled)
    && (!UnderAny(p, handled) && Ready(cfg, env, s, p)
        && TrueAt(cfg, s, p, Sync.Find(survey.invA, p), Sync.Find(survey.invB, p), Sync.Find(survey.verdicts, p)) ==>
          && TurnDone(cfg, env, s, t, p)
          && grown == if LoneSide(s, p).Some? || ClashAt(s, p) then handled + [p] else handled)
  }

  lemma TurnPromise(cfg: Config, env: Env, survey: Survey, pass: Pass, p: Path)
    ensures var after := StaleStep(cfg, env, survey, pass, p);
      TurnFollowed(cfg, env, pass.state, after.state, pass.handled, after.handled, survey, p)
  {
    hide Act, Ready, TurnDone, UnderAny, TrueAt, LoneSide, ClashAt;
    var stA, stB, v := Sync.Find(survey.invA, p), Sync.Find(survey.invB, p), Sync.Find(survey.verdicts, p);
    if Ready(cfg, env, pass.state, p) && TrueAt(cfg, pass.state, p, stA, stB, v) {
      ActPromise(cfg, env, pass.state, p, stA, stB, v);
    }
  }

  // --------------------------------------------------------------- resolution

  /** The losing version, whole, under its new name; nothing else on that side changes. */
  ghost predicate LoserKept(d: Disk, d': Disk, err: Option<Error>, p: Path, name: Path) {
    Tree(d) && p in d && !d[p].Special? && RoomFor(d, p, name) ==>
      err.None? && forall y :: At(d', y) == if AtOrUnder(y, name) then At(d, Rebase(y, name, p)) else At(d, y)
  }

  lemma LoserPromise(d: Disk, p: Path, name: Path)
    ensures match CopyAny(d, p, d, name)
      case Success(d') => LoserKept(d, d', None, p, name)
      case Failure(e) => LoserKept(d, d, Some(e), p, name)
  {
    hide CopyAny, Tree, Rebase, HasParents;
    if Tree(d) && p in d && !d[p].Special? && RoomFor(d, p, name) {
      ParentsAlreadyThere(d, name, DEFAULT_MODE);
      AnyPlanted(d, p, d, name);
    }
  }

  /** Both versions survive and the table and the conflict list know; without a version to apply, an error and no change. */
  ghost predicate ChoiceApplied(cfg: Config, s: State, t: State, err: Option<Error>, p: Path, want: Choice,
        now: Stamp) {
    var winner := want.Winner();
    var from, to := s.Of(winner).disk, s.Of(winner.Opposite()).disk;
    var name := PreservedName(p, winner.Opposite(), p in to && to[p].Dir?, want, now);
    && (p !in from || from[p].Special? ==> err.Some? && t == s)
    && (p in from && !from[p].Special? && Tree(from) && Tree(to) ==>
          && (p in to && !to[p].Special? && RoomFor(to, p, name) ==>
                && err.None? && BothKept(s, t, p, winner, name) && AllRecorded(cfg, t, p)
                && t.conflicts == CloseConflict(s.conflicts, p, want.Text() + ":" + name))
          && (p !in to && ParentsFree(to, p) ==>
                && err.None? && Provided(s, t, p, winner) && AllRecorded(cfg, t, p)
                && t.conflicts == CloseConflict(s.conflicts, p, want.Text())))
  }

  lemma ChoicePromise(cfg: Config, s: State, p: Path, want: Choice, now: Stamp)
    ensures var o := ApplyResolution(cfg, s, p, want, now); ChoiceApplied(cfg, s, o.state, o.error, p, want, now)
  {
    hide ApplyResolution, BothKept, AllRecorded, Provided, RoomFor, Tree, ParentsFree, CloseConflict, PreservedName;
    var winner := want.Winner();
    var from, to := s.Of(winner).disk, s.Of(winner.Opposite()).disk;
    NothingToApply(cfg, s, p, want, now);
    if p in from && !from[p].Special? && Tree(from) && Tree(to) {
      if p in to {
        if !to[p].Special? && RoomFor(to, p, PreservedName(p, winner.Opposite(), to[p].Dir?, want, now)) {
          ResolutionKeepsBoth(cfg, s, p, want, now);
        }
      } else if ParentsFree(to, p) {
        ResolutionProvides(cfg, s, p, want, now);
      }
    }
  }
}
