// internal/engine/resolve.go: an operator decides a conflict.

module Resolution {
  import opened Actions
  import opened Digests
  import opened Disks
  import opened Events
  import opened Exclude
  import opened Frames
  import opened Names
  import opened Nodes
  import opened Options
  import opened Paths
  import opened Removal
  import opened Settings
  import opened Store
  import opened Sync

  datatype Choice = ChooseA | ChooseB | ChooseBoth {
    function Text(): string {
      match this
      case ChooseA => "a"
      case ChooseB => "b"
      case ChooseBoth => "both"
    }

    function Winner(): Side {
      if this == ChooseB then SideB else SideA
    }
  }

  const KEPT := ".sync-kept-"

  /** "both" keeps the losing version under a name that is itself synchronised. */
  function KeptName(p: Path, loser: Side, now: Stamp): Path {
    p + KEPT + loser.Name() + "-" + now
  }

  function PreservedName(p: Path, loser: Side, isDir: bool, want: Choice, now: Stamp): Path {
    if want == ChooseBoth then KeptName(p, loser, now)
    else if isDir then PreservedDirName(p, loser, now)
    else ConflictName(p, loser, now)
  }

  /** A file, link or whole tree copied within one side. */
  function CopyAny(src: Disk, from: Path, d: Disk, to: Path): Result<Disk, Error> {
    if from !in src then Failure(NotFound)
    else if src[from].Dir? then CopyTree(src, from, d, to)
    else CopyFile(src[from], Base(from), d, to)
  }

  /** The loser's tree with its version set aside and, where the kinds differ or it is a tree, out of the way. */
  function SetAside(d: Disk, p: Path, winner: Node, name: Path): Moved {
    if p !in d then Moved(d, None)
    else
      match CopyAny(d, p, d, name)
      case Failure(e) => Moved(d, Some(e))
      case Success(saved) =>
        if d[p].Dir? || StatOf(d[p]).kind != StatOf(winner).kind then
          match Remove(saved, p, d[p].Dir?)
          case Failure(e) => Moved(saved, Some(e))
          case Success(cleared) => Moved(cleared, None)
        else Moved(saved, None)
  }

  function ResolutionText(want: Choice, preserved: Option<Path>): string {
    if preserved.Some? then want.Text() + ":" + preserved.value else want.Text()
  }

  function ApplyResolution(cfg: Config, s: State, p: Path, want: Choice, now: Stamp): Outcome {
    var winner := want.Winner();
    var loser := winner.Opposite();
    var from, to := s.Of(winner).disk, s.Of(loser).disk;
    if p !in from then Failed(s, NotFound)
    else if from[p].Special? then Failed(s, Unsyncable)
    else
      var preserved := if p in to then Some(PreservedName(p, loser, to[p].Dir?, want, now)) else None;
      var aside := SetAside(to, p, from[p], PreservedName(p, loser, p in to && to[p].Dir?, want, now));
      if aside.error.Some? then Outcome(s.WithDisk(loser, aside.disk), aside.error, [])
      else
        match CopyAny(from, p, aside.disk, p)
        case Failure(e) => Failed(s.WithDisk(loser, aside.disk), e)
        case Success(d) => Closed(cfg, s.WithDisk(loser, d), p, from[p].Dir?, ResolutionText(want, preserved))
  }

  function Closed(cfg: Config, s: State, p: Path, isDir: bool, text: string): Outcome {
    match RecordPair(cfg, s, p)
    case Failure(e) => Failed(s, e)
    case Success(t) =>
      var recorded := if isDir then RecordSubtree(cfg, t, p) else t;
      Done(MarkBoth(ConflictClosed(recorded, p, text), p, Synced), [])
  }

  // ------------------------------------------------------------------ the copies

  /** A place nothing occupies, and into which nothing stands in the way. */
  ghost predicate Vacant(d: Disk, to: Path) {
    ParentsFree(d, to) && forall y :: AtOrUnder(y, to) ==> y !in d
  }

  /** What a copy into a vacant place leaves. */
  ghost predicate Planted(src: Disk, from: Path, d: Disk, d': Disk, to: Path)
  {
    forall y :: At(d', y) == if AtOrUnder(y, to) then At(src, Rebase(y, to, from)) else At(MkdirParents(d, to, DEFAULT_MODE), y)
  }

  lemma TreePlanted(src: Disk, from: Path, d: Disk, to: Path)
    requires from in src && src[from].Dir? && Vacant(d, to)
    ensures CopyTree(src, from, d, to).Success? && Planted(src, from, d, CopyTree(src, from, d, to).value, to)
  {
    if DirectoryInTheWay(src, from, d, to) {
      var x :| x in src && AtOrUnder(x, from) && Rebase(x, from, to) in d;
      RebaseBack(x, from, to);
      assert false;
    }
    var ready, after := MkdirParents(d, to, DEFAULT_MODE), CopyTree(src, from, d, to).value;
    forall y ensures At(after, y) == if AtOrUnder(y, to) then At(src, Rebase(y, to, from)) else At(ready, y) {
      ImagesAreRebased(src, from, to, y);
      if AtOrUnder(y, to) { AncestorsAreAbove(to, y); }
    }
  }

  lemma FilePlanted(src: Disk, from: Path, base: string, d: Disk, to: Path)
    requires Tree(src) && from in src && Carries(src[from]) && Vacant(d, to)
    ensures CopyFile(src[from], base, d, to).Success?
    ensures Planted(src, from, d, CopyFile(src[from], base, d, to).value, to)
  {
    var ready, after := MkdirParents(d, to, DEFAULT_MODE), CopyFile(src[from], base, d, to).value;
    assert to !in d && after == ready[to := src[from]];
    forall y ensures At(after, y) == if AtOrUnder(y, to) then At(src, Rebase(y, to, from)) else At(ready, y) {
      if AtOrUnder(y, to) {
        RebaseBack(y, to, from);
        AncestorsAreAbove(to, y);
      }
    }
  }

  lemma AnyPlanted(src: Disk, from: Path, d: Disk, to: Path)
    requires Tree(src) && from in src && !src[from].Special? && Vacant(d, to)
    ensures CopyAny(src, from, d, to).Success? && Planted(src, from, d, CopyAny(src, from, d, to).value, to)
  {
    hide Vacant, Planted, Tree, CopyTree, CopyFile, Base;
    if src[from].Dir? { TreePlanted(src, from, d, to); } else { FilePlanted(src, from, Base(from), d, to); }
  }

  // --------------------------------------------------------------- setting aside

  /** Beside p there is room for the version of p that loses. */
  ghost predicate RoomFor(d: Disk, p: Path, name: Path) {
    && HasParents(d, name)
    && forall x :: AtOrUnder(x, name) ==> x !in d && !AtOrUnder(x, p)
  }

  /** The version of p now lies under the name; outside p all else is as it was. */
  ghost predicate KeptUnder(d: Disk, d': Disk, p: Path, name: Path) {
    forall y :: !AtOrUnder(y, p) ==> At(d', y) == if AtOrUnder(y, name) then At(d, Rebase(y, name, p)) else At(d, y)
  }

  ghost predicate ReadyToReplace(d: Disk, p: Path, winner: Node) {
    || (forall y :: AtOrUnder(y, p) ==> y !in d)
    || (p in d && StatOf(d[p]).kind == StatOf(winner).kind && Carries(d[p]) && forall y :: Under(y, p) ==> y !in d)
  }

  lemma SetAsideKeeps(d: Disk, p: Path, winner: Node, name: Path)
    requires Tree(d) && p in d && !d[p].Special? && RoomFor(d, p, name)
    ensures SetAside(d, p, winner, name).error.None?
    ensures var d' := SetAside(d, p, winner, name).disk;
      KeptUnder(d, d', p, name) && ReadyToReplace(d', p, winner) && forall q :: Under(p, q) ==> At(d', q) == At(d, q)
  {
    hide CopyAny, Rebase;
    ParentsAlreadyThere(d, name, DEFAULT_MODE);
    AnyPlanted(d, p, d, name);
    var saved := CopyAny(d, p, d, name).value;
    assert forall y :: AtOrUnder(y, p) ==> At(saved, y) == At(d, y);
    assert At(saved, p) == At(d, p);
    forall q | Under(p, q) ensures At(saved, q) == At(d, q) {
      NotAboveTheName(d, p, name, q);
    }
    if !d[p].Dir? {
      NothingBelowNothing(d, p);
      assert forall y :: Under(y, p) ==> At(saved, y) == None;
    }
  }

  lemma NotAboveTheName(d: Disk, p: Path, name: Path, q: Path)
    requires Tree(d) && p in d && RoomFor(d, p, name) && Under(p, q)
    ensures !AtOrUnder(q, name)
  {
    assert q in d;
  }

  // ----------------------------------------------------------------- the outcome

  /** Both versions survive: the winner's at p on both sides, the loser's beside it on its own side. */
  ghost predicate BothKept(s: State, t: State, p: Path, winner: Side, name: Path) {
    var loser := winner.Opposite();
    var from, to, d' := s.Of(winner).disk, s.Of(loser).disk, t.Of(loser).disk;
    && t.Of(winner).disk == from
    && (forall x :: AtOrUnder(x, p) ==> At(d', x) == At(from, x))
    && (forall x :: !AtOrUnder(x, p) ==>
          At(d', x) == if AtOrUnder(x, name) then At(to, Rebase(x, name, p)) else At(to, x))
  }

  /** Nothing was lost because there was nothing to lose; missing parents of p have been made. */
  ghost predicate Provided(s: State, t: State, p: Path, winner: Side) {
    var loser := winner.Opposite();
    var from, to, d' := s.Of(winner).disk, s.Of(loser).disk, t.Of(loser).disk;
    && t.Of(winner).disk == from
    && (forall x :: AtOrUnder(x, p) ==> At(d', x) == At(from, x))
    && (forall x :: !AtOrUnder(x, p) ==> At(d', x) == At(MkdirParents(to, p, DEFAULT_MODE), x))
  }

  /** The table vouches for p, and for all visible entries below it, on both sides. */
  ghost predicate AllRecorded(cfg: Config, s: State, p: Path) {
    forall x :: x in s.a.disk && (x == p || (Under(x, p) && !Excluded(cfg.exclude, x))) ==>
      Sync.Find(s.a.rows, x) == Sync.Find(s.b.rows, x) == Some(EntryFor(cfg, s.a.disk[x]))
  }

  lemma TreeRecorded(cfg: Config, s: State, t: State, p: Path)
    requires p in s.a.disk && p in s.b.disk && RecordPair(cfg, s, p) == Success(t)
    requires forall x :: AtOrUnder(x, p) ==> At(s.a.disk, x) == At(s.b.disk, x)
    ensures AllRecorded(cfg, RecordSubtree(cfg, t, p), p)
  {
    hide EntryFor, Excluded, Under;
    assert At(s.a.disk, p) == At(s.b.disk, p);
    forall x | AtOrUnder(x, p) && x in s.a.disk ensures x in s.b.disk && s.b.disk[x] == s.a.disk[x] {
      assert At(s.a.disk, x) == At(s.b.disk, x);
    }
  }

  lemma FileRecorded(cfg: Config, s: State, t: State, p: Path)
    requires p in s.a.disk && p in s.b.disk && RecordPair(cfg, s, p) == Success(t)
    requires At(s.a.disk, p) == At(s.b.disk, p) && forall x :: Under(x, p) ==> x !in s.a.disk
    ensures AllRecorded(cfg, t, p)
  {
    hide EntryFor, Excluded, Under;
  }

  lemma ClosedIs(cfg: Config, s: State, t: State, p: Path, isDir: bool, text: string)
    requires RecordPair(cfg, s, p) == Success(t)
    requires AllRecorded(cfg, if isDir then RecordSubtree(cfg, t, p) else t, p)
    ensures var o := Closed(cfg, s, p, isDir, text);
      && o.error.None? && o.state.a.disk == s.a.disk && o.state.b.disk == s.b.disk
      && AllRecorded(cfg, o.state, p)
      && o.state.conflicts == CloseConflict(s.conflicts, p, text)
  {
    hide CloseConflict, Excluded, DigestOf, Stored, RecordedUnder;
  }

  /** Recording and closing at the end of a resolution. */
  lemma CloseIs(cfg: Config, s: State, p: Path, isDir: bool, text: string)
    requires p in s.a.disk && p in s.b.disk && isDir == s.a.disk[p].Dir?
    requires Tree(s.a.disk) || Tree(s.b.disk)
    requires forall x :: AtOrUnder(x, p) ==> At(s.a.disk, x) == At(s.b.disk, x)
    ensures var o := Closed(cfg, s, p, isDir, text);
      && o.error.None? && o.state.a.disk == s.a.disk && o.state.b.disk == s.b.disk
      && AllRecorded(cfg, o.state, p)
      && o.state.conflicts == CloseConflict(s.conflicts, p, text)
  {
    hide CloseConflict, AllRecorded, Tree, EntryFor, RecordSubtree, Closed;
    assert At(s.a.disk, p) == At(s.b.disk, p);
    var t := RecordPair(cfg, s, p).value;
    if isDir {
      TreeRecorded(cfg, s, t, p);
    } else {
      if Tree(s.a.disk) { NothingBelowNothing(s.a.disk, p); } else { NothingBelowNothing(s.b.disk, p); }
      forall x | Under(x, p) ensures x !in s.a.disk {
        assert At(s.a.disk, x) == At(s.b.disk, x);
      }
      FileRecorded(cfg, s, t, p);
    }
    ClosedIs(cfg, s, t, p, isDir, text);
  }

  lemma WinnerOverSameKind(src: Disk, d: Disk, p: Path)
    requires Tree(src) && p in src && Carries(src[p]) && p in d && Carries(d[p]) && HasParents(d, p)
    requires forall y :: Under(y, p) ==> y !in d
    ensures CopyAny(src, p, d, p).Success?
    ensures var d' := CopyAny(src, p, d, p).value;
      (forall x :: AtOrUnder(x, p) ==> At(d', x) == At(src, x)) && (forall x :: !AtOrUnder(x, p) ==> At(d', x) == At(d, x))
  {
    hide Base;
    CopyFileIs(src[p], Base(p), d, p);
  }

  lemma WinnerIntoVacancy(src: Disk, d: Disk, p: Path)
    requires Tree(src) && p in src && !src[p].Special? && Vacant(d, p)
    ensures CopyAny(src, p, d, p).Success?
    ensures var d' := CopyAny(src, p, d, p).value;
      (forall x :: AtOrUnder(x, p) ==> At(d', x) == At(src, x))
      && (forall x :: !AtOrUnder(x, p) ==> At(d', x) == At(MkdirParents(d, p, DEFAULT_MODE), x))
  {
    hide CopyAny, MkdirParents, Tree;
    AnyPlanted(src, p, d, p);
    var d' := CopyAny(src, p, d, p).value;
    forall x | AtOrUnder(x, p) ensures At(d', x) == At(src, x) {
      RebaseInPlace(x, p);
    }
  }

  /** Copying the winner over a loser that has been set aside. */
  lemma WinnerReplaces(src: Disk, d: Disk, d': Disk, p: Path, name: Path)
    requires Tree(src) && p in src && !src[p].Special? && HasParents(d, p)
    requires KeptUnder(d, d', p, name) && ReadyToReplace(d', p, src[p]) && (forall q :: Under(p, q) ==> At(d', q) == At(d, q))
    ensures CopyAny(src, p, d', p).Success?
    ensures var after := CopyAny(src, p, d', p).value;
      (forall x :: AtOrUnder(x, p) ==> At(after, x) == At(src, x)) && KeptUnder(d, after, p, name)
  {
    hide CopyAny, Tree, Rebase;
    forall q | Under(p, q) ensures q in d' && d'[q].Dir? {
      assert At(d', q) == At(d, q);
    }
    ParentsAlreadyThere(d', p, DEFAULT_MODE);
    if forall y :: AtOrUnder(y, p) ==> y !in d' {
      WinnerIntoVacancy(src, d', p);
    } else {
      SameKindCarries(d'[p], src[p]);
      WinnerOverSameKind(src, d', p);
    }
  }

  lemma SameKindCarries(m: Node, n: Node)
    requires StatOf(m).kind == StatOf(n).kind && Carries(m)
    ensures Carries(n)
  {
  }

  lemma AppliedIs(cfg: Config, s: State, p: Path, want: Choice, now: Stamp, cleared: Disk, d: Disk)
    requires var winner := want.Winner(); var from, to := s.Of(winner).disk, s.Of(winner.Opposite()).disk;
      p in from && !from[p].Special?
      && SetAside(to, p, from[p], PreservedName(p, winner.Opposite(), p in to && to[p].Dir?, want, now)) == Moved(cleared, None)
      && CopyAny(from, p, cleared, p) == Success(d)
    ensures var winner := want.Winner(); var from, to := s.Of(winner).disk, s.Of(winner.Opposite()).disk;
      var preserved := if p in to then Some(PreservedName(p, winner.Opposite(), to[p].Dir?, want, now)) else None;
      ApplyResolution(cfg, s, p, want, now)
      == Closed(cfg, s.WithDisk(winner.Opposite(), d), p, from[p].Dir?, ResolutionText(want, preserved))
  {
    hide SetAside, CopyAny, Closed, PreservedName;
  }

  /**
   * Assisted resolution keeps both versions. Whatever the two kinds and whatever the conflict policy,
   * it succeeds, gives the loser's side the winner's whole subtree at p, leaves the loser's whole old
   * subtree under the preserved name, touches no other path, records what is visible at and below p,
   * and closes the conflict.
   */
  lemma ResolutionKeepsBoth(cfg: Config, s: State, p: Path, want: Choice, now: Stamp)
    requires Tree(s.a.disk) && Tree(s.b.disk)
    requires p in s.a.disk && p in s.b.disk && !s.a.disk[p].Special? && !s.b.disk[p].Special?
    requires var loser := want.Winner().Opposite(); var to := s.Of(loser).disk;
      RoomFor(to, p, PreservedName(p, loser, to[p].Dir?, want, now))
    ensures var o, winner := ApplyResolution(cfg, s, p, want, now), want.Winner();
      var name := PreservedName(p, winner.Opposite(), s.Of(winner.Opposite()).disk[p].Dir?, want, now);
      && o.error.None? && BothKept(s, o.state, p, winner, name) && AllRecorded(cfg, o.state, p)
      && o.state.conflicts == CloseConflict(s.conflicts, p, want.Text() + ":" + name)
  {
    hide PreservedName, CopyAny, Closed, ApplyResolution, SetAside, Tree, Rebase, RoomFor, CloseConflict,
      ReadyToReplace, AllRecorded;
    var winner := want.Winner();
    var loser := winner.Opposite();
    var from, to := s.Of(winner).disk, s.Of(loser).disk;
    var name := PreservedName(p, loser, to[p].Dir?, want, now);
    SetAsideKeeps(to, p, from[p], name);
    var cleared := SetAside(to, p, from[p], name).disk;
    TreeHasParents(to, p);
    WinnerReplaces(from, to, cleared, p, name);
    var d := CopyAny(from, p, cleared, p).value;
    AppliedIs(cfg, s, p, want, now, cleared, d);
    assert At(d, p) == At(from, p);
    CloseIs(cfg, s.WithDisk(loser, d), p, from[p].Dir?, want.Text() + ":" + name);
  }

  /** Where the losing side has nothing at p, it simply receives the winner's version. */
  lemma ResolutionProvides(cfg: Config, s: State, p: Path, want: Choice, now: Stamp)
    requires Tree(s.a.disk) && Tree(s.b.disk)
    requires var winner := want.Winner(); var from, to := s.Of(winner).disk, s.Of(winner.Opposite()).disk;
      p in from && !from[p].Special? && p !in to && ParentsFree(to, p)
    ensures var o, winner := ApplyResolution(cfg, s, p, want, now), want.Winner();
      && o.error.None? && Provided(s, o.state, p, winner) && AllRecorded(cfg, o.state, p)
      && o.state.conflicts == CloseConflict(s.conflicts, p, want.Text())
  {
    hide PreservedName, CopyAny, Closed, ApplyResolution, Tree, CloseConflict, AllRecorded, MkdirParents;
    var winner := want.Winner();
    var loser := winner.Opposite();
    var from, to := s.Of(winner).disk, s.Of(loser).disk;
    NothingBelowNothing(to, p);
    WinnerIntoVacancy(from, to, p);
    var d := CopyAny(from, p, to, p).value;
    AppliedIs(cfg, s, p, want, now, to, d);
    assert At(d, p) == At(from, p);
    CloseIs(cfg, s.WithDisk(loser, d), p, from[p].Dir?, want.Text());
  }

  /** Without a version to apply, nothing happens. */
  lemma NothingToApply(cfg: Config, s: State, p: Path, want: Choice, now: Stamp)
    ensures var o, from := ApplyResolution(cfg, s, p, want, now), s.Of(want.Winner()).disk;
      p !in from || from[p].Special? ==> o.error.Some? && o.state == s
  {
    hide SetAside, CopyAny, PreservedName;
  }

  // ------------------------------------------------------------------- room beside p

  lemma KeptSuffix(p: Path, side: Side, now: Stamp)
    ensures |KeptName(p, side, now)| > |p| && KeptName(p, side, now)[..|p|] == p && KeptName(p, side, now)[|p|] == '.'
    ensures forall j :: |p| <= j < |KeptName(p, side, now)| ==> KeptName(p, side, now)[j] != '/'
  {
    var tail := KEPT + side.Name() + "-" + now;
    assert KeptName(p, side, now) == p + tail;
    assert '/' !in KEPT && '/' !in side.Name() && '/' !in now;
    assert forall j :: 0 <= j < |tail| ==> tail[j] in KEPT || tail[j] in side.Name() || tail[j] == '-' || tail[j] in now;
    forall j | |p| <= j < |KeptName(p, side, now)| ensures KeptName(p, side, now)[j] != '/' {
      assert KeptName(p, side, now)[j] == tail[j - |p|];
    }
  }

  lemma RoomForKept(d: Disk, p: Path, side: Side, now: Stamp)
    requires HasParents(d, p) && forall x :: AtOrUnder(x, KeptName(p, side, now)) ==> x !in d
    ensures RoomFor(d, p, KeptName(p, side, now))
  {
    hide KeptName;
    var name := KeptName(p, side, now);
    KeptSuffix(p, side, now);
    forall x | AtOrUnder(x, name) ensures !AtOrUnder(x, p) {
      assert x[..|name|] == name && x[|p|] == name[|p|];
    }
    forall q | Under(name, q) ensures q in d && d[q].Dir? {
      ParentsBeforeTag(name, q, p, |p|);
    }
  }

  /** There is room for the losing version as soon as its name is not taken. */
  lemma RoomWhenFree(d: Disk, p: Path, side: Side, want: Choice, now: Stamp)
    requires Clean(p) && Tree(d) && p in d
    requires want != ChooseBoth ==> NamesFree(d, p, now)
    requires want == ChooseBoth ==> forall x :: AtOrUnder(x, KeptName(p, side, now)) ==> x !in d
    ensures RoomFor(d, p, PreservedName(p, side, d[p].Dir?, want, now))
  {
    hide ConflictName, PreservedDirName, KeptName, NamesFree, Clean, Tree;
    TreeHasParents(d, p);
    if want == ChooseBoth {
      RoomForKept(d, p, side, now);
    } else {
      NamesFreeFacts(d, p, now, side);
      SavedIsNotOriginal(p, side, now);
      PreservedHasParents(d, p, side, now);
      ConflictNameHasParents(d, p, side, now);
      NothingBelowNothing(d, ConflictName(p, side, now));
    }
  }
}
