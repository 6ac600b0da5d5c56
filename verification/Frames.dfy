// What one engine operation may touch, and that it succeeds when nothing is in its way.

module Frames {
  import opened Disks
  import opened Events
  import opened Exclude
  import opened Like
  import opened Names
  import opened Nodes
  import opened Options
  import opened Paths
  import opened Settings
  import opened Store
  import opened Sync

  /** A path that takes part in synchronisation. */
  predicate Visible(cfg: Config, p: Path) {
    Clean(p) && !Excluded(cfg.exclude, p)
  }

  /** The default exclusion of saved copies is in force. */
  predicate SavedExcluded(cfg: Config) {
    CONFLICT_PATTERN in cfg.exclude
  }

  predicate Saves(x: Path, p: Path, at: Stamp) {
    SavedFor(x, p, SideA, at) || SavedFor(x, p, SideB, at)
  }

  ghost predicate NamesFree(d: Disk, p: Path, at: Stamp) {
    forall x :: x in d ==> !Saves(x, p, at)
  }

  /** A walk meets every entry at or under its root, once. */
  ghost predicate WalkFaithful(env: Env) {
    forall d: Disk, p: Path :: Faithful(env.walk(d, p), d, p)
  }

  ghost predicate Faithful(visits: seq<Path>, d: Disk, p: Path) {
    && (forall x :: x in d && AtOrUnder(x, p) ==> x in visits)
    && (forall x :: x in visits ==> x in d)
    && NoDuplicates(visits)
  }

  predicate NoDuplicates<T(==)>(s: seq<T>) {
    forall i, j :: 0 <= i < j < |s| ==> s[i] != s[j]
  }

  /** Nothing stands in the way of acting at p. */
  ghost predicate Ready(cfg: Config, env: Env, s: State, p: Path) {
    && SavedExcluded(cfg) && Visible(cfg, p) && WalkFaithful(env)
    && Tree(s.a.disk) && Tree(s.b.disk)
    && HasParents(s.a.disk, p) && HasParents(s.b.disk, p)
    && NamesFree(s.a.disk, p, env.clock(p)) && NamesFree(s.b.disk, p, env.clock(p))
  }

  predicate Reached(x: Path, p: Path, wide: bool) {
    x == p || (wide && Under(x, p))
  }

  ghost predicate DiskKept(d: Disk, d': Disk, p: Path, wide: bool, at: Stamp) {
    forall x :: !Reached(x, p, wide) && !Saves(x, p, at) ==> At(d', x) == At(d, x)
  }

  /** Away from p rows are never added or changed, and only those p covers up to case may be lost. */
  ghost predicate RowsKept(rows: Rows, rows': Rows, p: Path, wide: bool) {
    && (forall x :: x in rows' && !Reached(x, p, wide) ==> x in rows && rows'[x] == rows[x])
    && (forall x :: x in rows && !Covered(x, p) ==> x in rows' && rows'[x] == rows[x])
  }

  ghost predicate ConflictsKept(c: Conflicts, c': Conflicts, p: Path) {
    forall x :: x != p ==> Find(c', x) == Find(c, x)
  }

  /** All an action at p leaves alone. */
  ghost predicate Frame(s: State, t: State, p: Path, wide: bool, at: Stamp) {
    && DiskKept(s.a.disk, t.a.disk, p, wide, at) && DiskKept(s.b.disk, t.b.disk, p, wide, at)
    && RowsKept(s.a.rows, t.a.rows, p, wide) && RowsKept(s.b.rows, t.b.rows, p, wide)
    && ConflictsKept(s.conflicts, t.conflicts, p)
    && Tree(t.a.disk) && Tree(t.b.disk)
  }

  // ------------------------------------------------------------- building blocks

  lemma TreeWithFile(d: Disk, p: Path, n: Node)
    requires Tree(d) && HasParents(d, p) && (p in d ==> !d[p].Dir?)
    ensures Tree(d[p := n])
  {
  }

  lemma TreeWithSameKind(d: Disk, p: Path, n: Node)
    requires Tree(d) && p in d && (d[p].Dir? ==> n.Dir?)
    ensures Tree(d[p := n])
  {
  }

  lemma TreeRemoveAll(d: Disk, p: Path)
    requires Tree(d)
    ensures Tree(RemoveAll(d, p))
  {
    var d' := RemoveAll(d, p);
    forall x, q | x in d' && Under(x, q) ensures q in d' && d'[q].Dir? {
      if AtOrUnder(q, p) {
        if q != p { UnderTransitive(x, q, p); }
      }
    }
  }

  lemma NamesFreeFacts(d: Disk, p: Path, at: Stamp, side: Side)
    requires NamesFree(d, p, at)
    ensures ConflictName(p, side, at) !in d
    ensures forall x :: AtOrUnder(x, PreservedDirName(p, side, at)) ==> x !in d
  {
    hide ConflictName, PreservedDirName;
    assert ConflictName(p, side, at) in d ==> SavedFor(ConflictName(p, side, at), p, side, at);
    forall x | AtOrUnder(x, PreservedDirName(p, side, at)) ensures x !in d {
      assert SavedFor(x, p, side, at);
    }
  }

  lemma ConflictNameHasParents(d: Disk, p: Path, side: Side, at: Stamp)
    requires Clean(p) && HasParents(d, p)
    ensures HasParents(d, ConflictName(p, side, at))
  {
    hide ConflictName;
    forall q | Under(ConflictName(p, side, at), q) ensures q in d && d[q].Dir? {
      ConflictNameSitsBeside(p, side, at, q);
    }
  }

  lemma CopyFileIs(n: Node, base: string, d: Disk, to: Path)
    requires Carries(n) && HasParents(d, to) && (to in d ==> !d[to].Dir?)
    ensures CopyFile(n, base, d, to) == Success(d[to := n])
  {
    ParentsAlreadyThere(d, to, DEFAULT_MODE);
  }

  /** s after a copy of p from one side over the other. */
  function Overwritten(s: State, src: Side, p: Path): State
    requires p in s.Of(src).disk
  {
    s.WithDisk(src.Opposite(), s.Of(src.Opposite()).disk[p := s.Of(src).disk[p]])
  }

  lemma CopyAcrossIs(s: State, src: Side, p: Path)
    requires p in s.Of(src).disk && Carries(s.Of(src).disk[p])
    requires var to := s.Of(src.Opposite()).disk; HasParents(to, p) && (p in to ==> !to[p].Dir?)
    ensures CopyAcross(s, src, p) == Success(Overwritten(s, src, p))
  {
    hide Base;
    CopyFileIs(s.Of(src).disk[p], Base(p), s.Of(src.Opposite()).disk, p);
  }

  lemma CopyAsideIs(s: State, side: Side, p: Path, name: Path)
    requires var d := s.Of(side).disk; p in d && Carries(d[p]) && HasParents(d, name) && name !in d
    ensures CopyAside(s, side, p, name) == Success(s.WithDisk(side, s.Of(side).disk[name := s.Of(side).disk[p]]))
  {
    hide Base;
    CopyFileIs(s.Of(side).disk[p], Base(p), s.Of(side).disk, name);
  }

  lemma FrameComposes(s: State, t: State, u: State, p: Path, wide: bool, at: Stamp)
    requires Frame(s, t, p, wide, at) && Frame(t, u, p, wide, at)
    ensures Frame(s, u, p, wide, at)
  {
    hide Saves, Covered, Reached, Tree;
  }

  lemma FrameWidens(s: State, t: State, p: Path, at: Stamp)
    requires Frame(s, t, p, false, at)
    ensures Frame(s, t, p, true, at)
  {
    hide Saves, Covered, Tree;
  }

  lemma OverwrittenFrame(s: State, src: Side, p: Path, at: Stamp)
    requires p in s.Of(src).disk && Tree(s.a.disk) && Tree(s.b.disk)
    requires var to := s.Of(src.Opposite()).disk; HasParents(to, p) && (p in to ==> !to[p].Dir?)
    ensures Frame(s, Overwritten(s, src, p), p, false, at)
  {
    hide Saves, Covered;
    TreeWithFile(s.Of(src.Opposite()).disk, p, s.Of(src).disk[p]);
  }

  lemma AsideFrame(s: State, side: Side, p: Path, name: Path, at: Stamp)
    requires p in s.Of(side).disk && Tree(s.a.disk) && Tree(s.b.disk)
    requires HasParents(s.Of(side).disk, name) && name !in s.Of(side).disk && Saves(name, p, at)
    ensures Frame(s, s.WithDisk(side, s.Of(side).disk[name := s.Of(side).disk[p]]), p, false, at)
  {
    hide Saves, Covered;
    TreeWithFile(s.Of(side).disk, name, s.Of(side).disk[p]);
  }

  /** Rows and conflict rows of p alone. */
  lemma BookkeepingFrame(s: State, t: State, p: Path, at: Stamp)
    requires Tree(s.a.disk) && Tree(s.b.disk)
    requires t.a.disk == s.a.disk && t.b.disk == s.b.disk
    requires forall x :: x != p ==> Find(t.a.rows, x) == Find(s.a.rows, x)
    requires forall x :: x != p ==> Find(t.b.rows, x) == Find(s.b.rows, x)
    requires forall x :: x != p ==> Find(t.conflicts, x) == Find(s.conflicts, x)
    ensures Frame(s, t, p, false, at)
  {
    hide Saves, Tree;
    RowsOutside(s.a.rows, t.a.rows, p);
    RowsOutside(s.b.rows, t.b.rows, p);
  }

  lemma RowsOutside(rows: Rows, rows': Rows, p: Path)
    requires forall x :: x != p ==> Find(rows', x) == Find(rows, x)
    ensures RowsKept(rows, rows', p, false)
  {
    hide CaseUnder;
    forall x | x != p ensures (x in rows' <==> x in rows) && (x in rows ==> rows'[x] == rows[x]) {
      assert Find(rows', x) == Find(rows, x);
    }
  }

  lemma FrameKeepsTrees(s: State, t: State, p: Path, wide: bool, at: Stamp)
    requires Frame(s, t, p, wide, at)
    ensures Tree(t.a.disk) && Tree(t.b.disk)
  {
  }

  // ------------------------------------------------------------- files and links

  /** Both sides hold the very same node at x, or neither holds any. */
  predicate EqualAt(s: State, x: Path) {
    At(s.a.disk, x) == At(s.b.disk, x)
  }

  /** Nothing but files or links at p. */
  predicate FilesAt(s: State, p: Path) {
    (p in s.a.disk ==> Carries(s.a.disk[p])) && (p in s.b.disk ==> Carries(s.b.disk[p]))
  }

  lemma RecordedIs(cfg: Config, s: State, p: Path, writes: seq<(Side, Path)>, at: Stamp)
    requires p in s.a.disk && p in s.b.disk && Tree(s.a.disk) && Tree(s.b.disk)
    ensures var o := Recorded(cfg, s, p, writes);
      o.error.None? && o.writes == writes && o.state.a.disk == s.a.disk && o.state.b.disk == s.b.disk
      && o.state.a.rows == s.a.rows[p := EntryFor(cfg, s.a.disk[p])]
      && o.state.b.rows == s.b.rows[p := EntryFor(cfg, s.b.disk[p])]
      && o.state.conflicts == s.conflicts && Frame(s, o.state, p, false, at)
  {
    hide EntryFor, Tree, Saves;
    BookkeepingFrame(s, Recorded(cfg, s, p, writes).state, p, at);
  }

  /** What every successful copy over leaves behind. */
  ghost predicate Copied(cfg: Config, s: State, o: Outcome, src: Side, p: Path, at: Stamp)
  {
    && p in s.Of(src).disk && o.error.None?
    && Frame(s, o.state, p, false, at)
    && At(o.state.a.disk, p) == At(o.state.b.disk, p) == Some(s.Of(src).disk[p])
    && Find(o.state.a.rows, p) == Find(o.state.b.rows, p) == Some(EntryFor(cfg, s.Of(src).disk[p]))
  }

  lemma PlainCopy(cfg: Config, s: State, src: Side, p: Path, writes: seq<(Side, Path)>, at: Stamp)
    requires p in s.Of(src).disk && FilesAt(s, p) && Tree(s.a.disk) && Tree(s.b.disk)
    requires HasParents(s.Of(src.Opposite()).disk, p)
    ensures CopyAcross(s, src, p).Success?
    ensures var copied := CopyAcross(s, src, p).value;
      var o := Recorded(cfg, copied, p, writes);
      Copied(cfg, s, o, src, p, at) && o.writes == writes && o.state.conflicts == s.conflicts
      && o.state.Of(src).disk == s.Of(src).disk
      && o.state.Of(src.Opposite()).disk == s.Of(src.Opposite()).disk[p := s.Of(src).disk[p]]
  {
    hide EntryFor, Tree, Saves, Frame;
    CopyAcrossIs(s, src, p);
    OverwrittenFrame(s, src, p, at);
    var t := Overwritten(s, src, p);
    FrameKeepsTrees(s, t, p, false, at);
    RecordedIs(cfg, t, p, writes, at);
    FrameComposes(s, t, Recorded(cfg, t, p, writes).state, p, false, at);
  }

  /** The version a side held at p is kept beside it, under its conflict name. */
  predicate SavedCopy(s: State, t: State, side: Side, p: Path, at: Stamp) {
    p in s.Of(side).disk && At(t.Of(side).disk, ConflictName(p, side, at)) == Some(s.Of(side).disk[p])
  }

  /** Both sides hold a file or link at p, and the engine may act there. */
  ghost predicate TwoFiles(s: State, p: Path, at: Stamp) {
    && Clean(p) && FilesAt(s, p) && p in s.a.disk && p in s.b.disk
    && Tree(s.a.disk) && Tree(s.b.disk) && HasParents(s.a.disk, p) && HasParents(s.b.disk, p)
    && NamesFree(s.a.disk, p, at) && NamesFree(s.b.disk, p, at)
  }

  lemma CopiedFrom(cfg: Config, s: State, t: State, o: Outcome, src: Side, p: Path, at: Stamp)
    requires Frame(s, t, p, false, at) && Copied(cfg, t, o, src, p, at)
    requires p in s.Of(src).disk && t.Of(src).disk[p] == s.Of(src).disk[p]
    ensures Copied(cfg, s, o, src, p, at)
  {
    hide EntryFor, Frame;
    FrameComposes(s, t, o.state, p, false, at);
  }

  lemma SavesItsNames(p: Path, side: Side, at: Stamp)
    ensures Saves(ConflictName(p, side, at), p, at)
  {
    hide ConflictName;
  }

  lemma AsideResult(s: State, side: Side, p: Path, at: Stamp) returns (saved: State)
    requires TwoFiles(s, p, at)
    ensures CopyAside(s, side, p, ConflictName(p, side, at)) == Success(saved)
    ensures saved == s.WithDisk(side, s.Of(side).disk[ConflictName(p, side, at) := s.Of(side).disk[p]])
    ensures Frame(s, saved, p, false, at) && ConflictName(p, side, at) != p
  {
    hide ConflictName, Tree, Frame, HasParents;
    var name, d := ConflictName(p, side, at), s.Of(side).disk;
    NamesFreeFacts(d, p, at, side);
    ConflictNameHasParents(d, p, side, at);
    SavedIsNotOriginal(p, side, at);
    SavesItsNames(p, side, at);
    CopyAsideIs(s, side, p, name);
    saved := s.WithDisk(side, d[name := d[p]]);
    AsideFrame(s, side, p, name, at);
  }

  lemma ParentsKept(d: Disk, p: Path, name: Path, n: Node)
    requires HasParents(d, p) && name !in d
    ensures HasParents(d[name := n], p)
  {
  }

  lemma ClosedFrame(s: State, p: Path, how: string, at: Stamp)
    requires Tree(s.a.disk) && Tree(s.b.disk)
    ensures Frame(s, ConflictClosed(s, p, how), p, false, at)
  {
    hide Tree, Saves;
    BookkeepingFrame(s, ConflictClosed(s, p, how), p, at);
  }

  /** A copy over, once the conflict is closed, is recorded like any other. */
  lemma ClosedCopy(cfg: Config, s: State, src: Side, p: Path, how: string, writes: seq<(Side, Path)>, at: Stamp)
    requires p in s.Of(src).disk && FilesAt(s, p) && Tree(s.a.disk) && Tree(s.b.disk)
    requires HasParents(s.Of(src.Opposite()).disk, p)
    ensures CopyAcross(s, src, p).Success?
    ensures var o := Recorded(cfg, ConflictClosed(CopyAcross(s, src, p).value, p, how), p, writes);
      Copied(cfg, s, o, src, p, at) && o.writes == writes
      && o.state.Of(src).disk == s.Of(src).disk
      && o.state.Of(src.Opposite()).disk == s.Of(src.Opposite()).disk[p := s.Of(src).disk[p]]
  {
    hide EntryFor, Tree, Saves, Frame, HasParents;
    CopyAcrossIs(s, src, p);
    OverwrittenFrame(s, src, p, at);
    var t := Overwritten(s, src, p);
    FrameKeepsTrees(s, t, p, false, at);
    ClosedFrame(t, p, how, at);
    var u := ConflictClosed(t, p, how);
    FrameComposes(s, t, u, p, false, at);
    RecordedIs(cfg, u, p, writes, at);
    FrameComposes(s, u, Recorded(cfg, u, p, writes).state, p, false, at);
  }

  lemma KeepBothResult(cfg: Config, s: State, src: Side, p: Path, at: Stamp)
    requires TwoFiles(s, p, at)
    ensures var o, dst := KeepBoth(cfg, s, src, p, at), src.Opposite();
      Copied(cfg, s, o, src, p, at) && SavedCopy(s, o.state, dst, p, at)
      && o.writes == [(dst, ConflictName(p, dst, at)), (dst, p)]
  {
    hide ConflictName, Tree, Frame, HasParents, EntryFor, Saves;
    var dst := src.Opposite();
    var name := ConflictName(p, dst, at);
    var saved := AsideResult(s, dst, p, at);
    FrameKeepsTrees(s, saved, p, false, at);
    NamesFreeFacts(s.Of(dst).disk, p, at, dst);
    ParentsKept(s.Of(dst).disk, p, name, s.Of(dst).disk[p]);
    ClosedCopy(cfg, saved, src, p, "preserve:" + name, [(dst, name), (dst, p)], at);
    CopiedFrom(cfg, s, saved, KeepBoth(cfg, s, src, p, at), src, p, at);
  }

  lemma NotedFrame(cfg: Config, s: State, p: Path, at: Stamp)
    requires TwoFiles(s, p, at)
    ensures Frame(s, ConflictRecorded(cfg, s, p), p, false, at) && TwoFiles(ConflictRecorded(cfg, s, p), p, at)
  {
    hide Tree, Saves, DigestOf, HasParents, NamesFree;
    BookkeepingFrame(s, ConflictRecorded(cfg, s, p), p, at);
  }

  /** The side whose version is newer; src when the mtimes are equal. */
  function NewerOf(s: State, src: Side, p: Path): Side
    requires p in s.a.disk && p in s.b.disk
  {
    var dst := src.Opposite();
    if StatOf(s.Of(dst).disk[p]).mtime > StatOf(s.Of(src).disk[p]).mtime then dst else src
  }

  /** The side whose version a conflict leaves at the path, when the policy touches files at all. */
  function ConflictWinner(cfg: Config, s: State, src: Side, p: Path): Side
    requires p in s.a.disk && p in s.b.disk
  {
    if cfg.conflict == NewerWins then NewerOf(s, src, p) else src
  }

  /** One write at p, after at most one saved copy of p. */
  predicate WritesOnce(writes: seq<(Side, Path)>, p: Path, at: Stamp) {
    1 <= |writes| <= 2 && writes[|writes| - 1].1 == p
    && forall i :: 0 <= i < |writes| - 1 ==> writes[i].1 != p && Saves(writes[i].1, p, at)
  }

  lemma ManualResult(cfg: Config, s: State, src: Side, p: Path, at: Stamp)
    requires TwoFiles(s, p, at) && cfg.conflict == Manual
    ensures var o := ResolveConflict(cfg, s, src, p, at);
      o.error.None? && Frame(s, o.state, p, false, at)
      && o.state.a.disk == s.a.disk && o.state.b.disk == s.b.disk && o.writes == []
  {
    hide Tree, HasParents, Saves, DigestOf, Frame, NamesFree;
    NotedFrame(cfg, s, p, at);
    var noted := ConflictRecorded(cfg, s, p);
    MarkedFrame(noted, p, Conflicted, at);
    FrameComposes(s, noted, MarkBoth(noted, p, Conflicted), p, false, at);
  }

  lemma NewerResult(cfg: Config, s: State, src: Side, p: Path, at: Stamp)
    requires TwoFiles(s, p, at) && cfg.conflict == NewerWins
    ensures var o, winner := ResolveConflict(cfg, s, src, p, at), ConflictWinner(cfg, s, src, p);
      Copied(cfg, s, o, winner, p, at) && o.writes == [(winner.Opposite(), p)]
  {
    hide Tree, HasParents, Saves, DigestOf, Frame, NamesFree, EntryFor;
    NotedFrame(cfg, s, p, at);
    var noted, winner := ConflictRecorded(cfg, s, p), ConflictWinner(cfg, s, src, p);
    ClosedCopy(cfg, noted, winner, p, "newer-wins", [(winner.Opposite(), p)], at);
    CopiedFrom(cfg, s, noted, ResolveConflict(cfg, s, src, p, at), winner, p, at);
  }

  lemma PreserveResult(cfg: Config, s: State, src: Side, p: Path, at: Stamp)
    requires TwoFiles(s, p, at) && cfg.conflict == Preserve
    ensures var o, dst := ResolveConflict(cfg, s, src, p, at), src.Opposite();
      Copied(cfg, s, o, src, p, at) && SavedCopy(s, o.state, dst, p, at)
      && o.writes == [(dst, ConflictName(p, dst, at)), (dst, p)]
  {
    hide ConflictName, Tree, HasParents, Saves, DigestOf, Frame, NamesFree, EntryFor;
    NotedFrame(cfg, s, p, at);
    var noted := ConflictRecorded(cfg, s, p);
    KeepBothResult(cfg, noted, src, p, at);
    CopiedFrom(cfg, s, noted, ResolveConflict(cfg, s, src, p, at), src, p, at);
  }

  /**
   * Resolving a conflict never fails. Manual leaves both files alone; otherwise both sides end with
   * the winner's file and row, and under preserve the other version lies beside it.
   */
  lemma ResolveResult(cfg: Config, s: State, src: Side, p: Path, at: Stamp)
    requires TwoFiles(s, p, at)
    ensures var o := ResolveConflict(cfg, s, src, p, at);
      && o.error.None? && Frame(s, o.state, p, false, at)
      && (cfg.conflict == Manual ==>
            o.state.a.disk == s.a.disk && o.state.b.disk == s.b.disk && o.writes == [])
      && (cfg.conflict != Manual ==>
            Copied(cfg, s, o, ConflictWinner(cfg, s, src, p), p, at) && WritesOnce(o.writes, p, at))
      && (cfg.conflict == Preserve ==> SavedCopy(s, o.state, src.Opposite(), p, at))
  {
    hide ConflictName, TwoFiles, Saves, Frame, ResolveConflict, EntryFor, SavedCopy;
    match cfg.conflict {
      case Manual => ManualResult(cfg, s, src, p, at);
      case NewerWins => NewerResult(cfg, s, src, p, at);
      case Preserve =>
        PreserveResult(cfg, s, src, p, at);
        SavesItsNames(p, src.Opposite(), at);
        NamesDiffer(p, src.Opposite(), at, s);
    }
  }

  lemma NamesDiffer(p: Path, side: Side, at: Stamp, s: State)
    requires TwoFiles(s, p, at)
    ensures ConflictName(p, side, at) != p
  {
    hide ConflictName;
    SavedIsNotOriginal(p, side, at);
  }

  lemma MarkedFrame(s: State, p: Path, status: Status, at: Stamp)
    requires Tree(s.a.disk) && Tree(s.b.disk)
    ensures Frame(s, MarkBoth(s, p, status), p, false, at)
  {
    hide Tree, Saves;
    BookkeepingFrame(s, MarkBoth(s, p, status), p, at);
  }

  /** Propagating a file: a plain copy unless the destination left its recorded state and differs. */
  lemma PropagateFileResult(cfg: Config, s: State, src: Side, p: Path, at: Stamp)
    requires p in s.Of(src).disk && FilesAt(s, p) && Tree(s.a.disk) && Tree(s.b.disk)
    requires HasParents(s.a.disk, p) && HasParents(s.b.disk, p)
    requires Clean(p) && NamesFree(s.a.disk, p, at) && NamesFree(s.b.disk, p, at)
    ensures DetectConflict(cfg, s, src, p).Success?
    ensures var o := PropagateFile(cfg, s, src, p, at);
      && o.error.None? && Frame(s, o.state, p, false, at)
      && (!DetectConflict(cfg, s, src, p).value ==>
            Copied(cfg, s, o, src, p, at) && o.writes == [(src.Opposite(), p)] && o.state.conflicts == s.conflicts
            && o.state.Of(src).disk == s.Of(src).disk
            && o.state.Of(src.Opposite()).disk == s.Of(src.Opposite()).disk[p := s.Of(src).disk[p]])
      && (DetectConflict(cfg, s, src, p).value ==>
            TwoFiles(s, p, at) && o == ResolveConflict(cfg, s, src, p, at))
  {
    hide ConflictName, Tree, HasParents, EntryFor, Saves, DigestOf, RowsKept, DiskKept, ConflictsKept,
      NamesFree;
    if DetectConflict(cfg, s, src, p).value {
      ResolveResult(cfg, s, src, p, at);
    } else {
      PlainCopy(cfg, s, src, p, [(src.Opposite(), p)], at);
    }
  }
}
