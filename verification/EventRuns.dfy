// The event path without its guard (internal/engine/engine.go, conflict.go): every write comes back
// as further events, and idempotence alone must end the exchange.

module EventRuns {
  import opened Actions
  import opened Bursts
  import opened Digests
  import opened Disks
  import opened Events
  import opened Exclude
  import opened Frames
  import opened Names
  import opened Nodes
  import opened Options
  import opened Passes
  import opened Paths
  import opened Settings
  import opened Sync

  /** What an operation wrote and did not report as written: directories made on the way, trees copied. */
  ghost function Unlisted(s: State, o: Outcome): set<(Side, Path)> {
    (set x | x in o.state.a.disk && At(o.state.a.disk, x) != At(s.a.disk, x) && (SideA, x) !in o.writes :: (SideA, x))
    + (set x | x in o.state.b.disk && At(o.state.b.disk, x) != At(s.b.disk, x) && (SideB, x) !in o.writes :: (SideB, x))
  }

  ghost function Listing<T(!new)>(xs: set<T>): (r: seq<T>)
    ensures forall x :: x in r <==> x in xs
  {
    if xs == {} then []
    else
      var x :| x in xs;
      [x] + Listing(xs - {x})
  }

  /** Everything an operation wrote. */
  ghost function AllWrites(s: State, o: Outcome): seq<(Side, Path)> {
    o.writes + Listing(Unlisted(s, o))
  }

  /** The two replicas, the events nobody has handled yet, and every write so far. */
  datatype System = System(state: State, pending: seq<Event>, log: seq<(Side, Path)>)

  /** What a watcher may report of the engine's own writes, given what is there: saved copies are excluded paths. */
  predicate EchoesOf(cfg: Config, echoes: seq<Event>, t: State, writes: seq<(Side, Path)>) {
    forall e :: e in echoes ==>
      && (e.side, e.path) in writes && Visible(cfg, e.path) && e.kind in {Create, Modify, Attrib}
      && e.isDir == DirAt(t, e.side, e.path)
  }

  predicate DirAt(s: State, side: Side, p: Path) {
    p in s.Of(side).disk && s.Of(side).disk[p].Dir?
  }

  predicate Drops(c: System, c': System, i: nat)
    requires i < |c.pending|
  {
    c' == c.(pending := c.pending[..i] + c.pending[i + 1..])
  }

  ghost predicate Handles(cfg: Config, env: Env, c: System, c': System, i: nat, echoes: seq<Event>)
    requires i < |c.pending| && c.pending[i].kind != Move
  {
    var o := Process(cfg, env, c.state, c.pending[i]);
    && EchoesOf(cfg, echoes, o.state, AllWrites(c.state, o))
    && c' == System(o.state, c.pending[..i] + c.pending[i + 1..] + echoes, c.log + AllWrites(c.state, o))
  }

  /** Any pending event is dropped, or handled with any finite echo of what the engine then writes. */
  ghost predicate Step(cfg: Config, env: Env, c: System, c': System) {
    exists i :: 0 <= i < |c.pending| && c.pending[i].kind != Move &&
      (Drops(c, c', i) || exists echoes :: Handles(cfg, env, c, c', i, echoes))
  }

  // ----------------------------------------------------------------- settled paths

  /** Both sides hold a file or link at p, each as recorded, and the recorded digests agree. */
  predicate Settled(cfg: Config, s: State, p: Path) {
    && p in s.a.disk && p in s.b.disk && Carries(s.a.disk[p]) && Carries(s.b.disk[p])
    && Sync.Find(s.a.rows, p) == Some(EntryFor(cfg, s.a.disk[p]))
    && Sync.Find(s.b.rows, p) == Some(EntryFor(cfg, s.b.disk[p]))
    && Compare(DigestOf(cfg, s.a.disk[p]), DigestOf(cfg, s.b.disk[p])) == Same
  }

  /** An event of a file or link that either side may hold or lack; its saved name is not yet in use. */
  ghost predicate EventReady(cfg: Config, env: Env, s: State, ev: Event) {
    && ev.kind in {Create, Modify, Attrib} && !ev.isDir && Visible(cfg, ev.path) && FilesAt(s, ev.path)
    && (ev.kind == Attrib ==> SameDigests(cfg, s, ev.path))
    && (ev.kind != Attrib ==>
          || Settled(cfg, s, ev.path)
          || (NamesFree(s.a.disk, ev.path, env.clock(ev.path)) && NamesFree(s.b.disk, ev.path, env.clock(ev.path))))
  }

  /** An attribute event is harmless where both sides have one content, as their digests tell. */
  predicate SameDigests(cfg: Config, s: State, p: Path) {
    p in s.a.disk && p in s.b.disk ==> Compare(DigestOf(cfg, s.a.disk[p]), DigestOf(cfg, s.b.disk[p])) == Same
  }

  lemma StoredCompares(cfg: Config, m: Node, n: Node)
    requires Carries(m) && Carries(n)
    ensures Compare(EntryFor(cfg, m).digest, EntryFor(cfg, n).digest) == Compare(DigestOf(cfg, m), DigestOf(cfg, n))
  {
    ComputedSurvives(m, cfg.hashMax, cfg.hashSample);
    ComputedSurvives(n, cfg.hashMax, cfg.hashSample);
    CompareSymmetric(EntryFor(cfg, m).digest, DigestOf(cfg, n));
    CompareSymmetric(DigestOf(cfg, m), DigestOf(cfg, n));
  }

  /** The idempotence layer recognises every event at a settled path. */
  lemma SettledIsNoOp(cfg: Config, env: Env, s: State, ev: Event)
    requires Settled(cfg, s, ev.path) && ev.kind in {Create, Modify, Attrib}
    ensures Process(cfg, env, s, ev) == Done(s, [])
  {
    hide DigestOf, Stored, PropagateContent, PropagateAttrs;
    var m, n := s.Of(ev.side).disk[ev.path], s.Of(ev.side.Opposite()).disk[ev.path];
    CompareSymmetric(DigestOf(cfg, m), DigestOf(cfg, n));
    StoredCompares(cfg, m, n);
  }

  lemma CopiedSettles(cfg: Config, s: State, o: Outcome, src: Side, p: Path, at: Stamp)
    requires Copied(cfg, s, o, src, p, at) && Carries(s.Of(src).disk[p])
    ensures Settled(cfg, o.state, p)
  {
    hide EntryFor, Frame;
    EqualContentNeverDiffers(s.Of(src).disk[p], s.Of(src).disk[p], cfg.hashMax, cfg.hashSample);
  }

  // ------------------------------------------------------------------ one event

  /** What handling one event comes to. */
  ghost predicate Handled(cfg: Config, s: State, o: Outcome, p: Path, at: Stamp) {
    && AllWrites(s, o) == o.writes
    && Frame(s, o.state, p, false, at) && RowsElsewhereKept(s, o.state, p)
    && (o.writes == [] ==> o.state.a.disk == s.a.disk && o.state.b.disk == s.b.disk)
    && (o.writes == [] && o.state != s ==> p in s.a.disk && p in s.b.disk)
    && (o.writes != [] ==> WritesOnce(o.writes, p, at) && Settled(cfg, o.state, p))
    && (Settled(cfg, s, p) ==> o == Done(s, []))
  }

  /** All that changes is on one side, and reported. */
  lemma AllListed(s: State, o: Outcome, src: Side)
    requires o.state.Of(src).disk == s.Of(src).disk
    requires var d, d' := s.Of(src.Opposite()).disk, o.state.Of(src.Opposite()).disk;
      forall x :: x in d' && At(d', x) != At(d, x) ==> (src.Opposite(), x) in o.writes
    ensures AllWrites(s, o) == o.writes
  {
    assert Unlisted(s, o) == {};
  }

  lemma NewerListed(cfg: Config, s: State, src: Side, p: Path, at: Stamp)
    requires TwoFiles(s, p, at) && cfg.conflict == NewerWins
    ensures var o := ResolveConflict(cfg, s, src, p, at); AllWrites(s, o) == o.writes
  {
    hide Tree, HasParents, Saves, DigestOf, Frame, NamesFree, EntryFor, AllWrites, Recorded, CopyAcross;
    NotedFrame(cfg, s, p, at);
    var noted, winner := ConflictRecorded(cfg, s, p), ConflictWinner(cfg, s, src, p);
    ClosedCopy(cfg, noted, winner, p, "newer-wins", [(winner.Opposite(), p)], at);
    AllListed(s, ResolveConflict(cfg, s, src, p, at), winner);
  }

  lemma PreserveListed(cfg: Config, s: State, src: Side, p: Path, at: Stamp)
    requires TwoFiles(s, p, at) && cfg.conflict == Preserve
    ensures var o := ResolveConflict(cfg, s, src, p, at); AllWrites(s, o) == o.writes
  {
    hide ConflictName, Tree, HasParents, Saves, DigestOf, Frame, NamesFree, EntryFor, AllWrites, Recorded, CopyAcross,
      CopyAside;
    NotedFrame(cfg, s, p, at);
    var noted, dst := ConflictRecorded(cfg, s, p), src.Opposite();
    var name := ConflictName(p, dst, at);
    var saved := AsideResult(noted, dst, p, at);
    FrameKeepsTrees(noted, saved, p, false, at);
    NamesFreeFacts(noted.Of(dst).disk, p, at, dst);
    ParentsKept(noted.Of(dst).disk, p, name, noted.Of(dst).disk[p]);
    ClosedCopy(cfg, saved, src, p, "preserve:" + name, [(dst, name), (dst, p)], at);
    AllListed(s, ResolveConflict(cfg, s, src, p, at), src);
  }

  lemma ResolveListed(cfg: Config, s: State, src: Side, p: Path, at: Stamp)
    requires TwoFiles(s, p, at)
    ensures var o := ResolveConflict(cfg, s, src, p, at); AllWrites(s, o) == o.writes
  {
    hide TwoFiles, ResolveConflict, AllWrites, Frame;
    match cfg.conflict {
      case Manual =>
        ManualResult(cfg, s, src, p, at);
        AllListed(s, ResolveConflict(cfg, s, src, p, at), src);
      case NewerWins => NewerListed(cfg, s, src, p, at);
      case Preserve => PreserveListed(cfg, s, src, p, at);
    }
  }

  lemma ContentHandled(cfg: Config, env: Env, s: State, src: Side, p: Path)
    requires p in s.Of(src).disk && FilesAt(s, p) && Tree(s.a.disk) && Tree(s.b.disk)
    requires HasParents(s.a.disk, p) && HasParents(s.b.disk, p) && Clean(p) && !Settled(cfg, s, p)
    requires NamesFree(s.a.disk, p, env.clock(p)) && NamesFree(s.b.disk, p, env.clock(p))
    ensures Handled(cfg, s, PropagateFile(cfg, s, src, p, env.clock(p)), p, env.clock(p))
  {
    hide ConflictName, Tree, HasParents, EntryFor, Saves, DigestOf, Frame, NamesFree, Settled,
      RowsElsewhereKept, Copied, ResolveConflict, PropagateFile, SavedCopy, Clean, DetectConflict, AllWrites;
    var at := env.clock(p);
    PropagateFileResult(cfg, s, src, p, at);
    PropagateKeepsRows(cfg, s, src, p, at);
    var o := PropagateFile(cfg, s, src, p, at);
    if DetectConflict(cfg, s, src, p).value {
      ResolveResult(cfg, s, src, p, at);
      ResolveListed(cfg, s, src, p, at);
      if cfg.conflict != Manual { CopiedSettles(cfg, s, o, ConflictWinner(cfg, s, src, p), p, at); }
    } else {
      AllListed(s, o, src);
      CopiedSettles(cfg, s, o, src, p, at);
    }
  }

  lemma AttrsSettle(cfg: Config, s: State, src: Side, p: Path, at: Stamp)
    requires p in s.a.disk && p in s.b.disk && Carries(s.a.disk[p])
    requires Carries(s.b.disk[p]) && Tree(s.a.disk) && Tree(s.b.disk)
    requires SameDigests(cfg, s, p)
    ensures Settled(cfg, PropagateAttrs(cfg, s, src, p).state, p)
  {
    hide EntryFor, PropagateAttrs, Tree;
    AttrsPropagated(cfg, s, src, p, at);
    AttrsKeepVersion(s.Of(src).disk[p], s.Of(src.Opposite()).disk[p]);
    AttrsKeepDigest(cfg, s.Of(src).disk[p], s.Of(src.Opposite()).disk[p]);
  }

  lemma AttrsKeepDigest(cfg: Config, m: Node, n: Node)
    requires Carries(n)
    ensures Carries(WithAttrs(n, m)) && DigestOf(cfg, WithAttrs(n, m)) == DigestOf(cfg, n)
  {
  }

  lemma SameDigestSameLink(cfg: Config, m: Node, n: Node)
    requires Compare(DigestOf(cfg, m), DigestOf(cfg, n)) == Same
    ensures (m.Symlink? <==> n.Symlink?) && Carries(m) && Carries(n)
  {
  }

  lemma AttrsHandled(cfg: Config, s: State, src: Side, p: Path, at: Stamp)
    requires p in s.Of(src).disk && FilesAt(s, p) && Tree(s.a.disk) && Tree(s.b.disk) && !Settled(cfg, s, p)
    requires SameDigests(cfg, s, p)
    ensures Handled(cfg, s, PropagateAttrs(cfg, s, src, p), p, at)
  {
    hide Tree, EntryFor, DigestOf, Saves, Frame, Settled, RowsElsewhereKept, AllWrites;
    PropagateKeepsRows(cfg, s, src, p, at);
    AllListed(s, PropagateAttrs(cfg, s, src, p), src);
    if p in s.Of(src.Opposite()).disk {
      AttrsPropagated(cfg, s, src, p, at);
      AttrsSettle(cfg, s, src, p, at);
      SameDigestSameLink(cfg, s.a.disk[p], s.b.disk[p]);
    } else {
      NoChangeFrame(s, p, at);
    }
  }

  /** The same, where the source exists and the path has its place on both sides. */
  lemma HandledInPlace(cfg: Config, env: Env, s: State, ev: Event)
    requires EventReady(cfg, env, s, ev) && Tree(s.a.disk) && Tree(s.b.disk) && ev.path in s.Of(ev.side).disk
    requires HasParents(s.a.disk, ev.path) && HasParents(s.b.disk, ev.path)
    ensures Handled(cfg, s, Process(cfg, env, s, ev), ev.path, env.clock(ev.path))
  {
    hide Tree, EntryFor, DigestOf, NamesFree, Frame, Settled, RowsElsewhereKept, HasParents, Excluded,
      Clean, PropagateFile, PropagateAttrs, WritesOnce, AlreadySynced;
    var p, at := ev.path, env.clock(ev.path);
    NothingHandled(cfg, s, p, at);
    if Settled(cfg, s, p) {
      SettledIsNoOp(cfg, env, s, ev);
    } else if !AlreadySynced(cfg, s, ev) {
      if ev.kind == Attrib {
        AttrsHandled(cfg, s, ev.side, p, at);
      } else {
        ContentHandled(cfg, env, s, ev.side, p);
      }
    }
  }

  lemma NothingHandled(cfg: Config, s: State, p: Path, at: Stamp)
    requires Tree(s.a.disk) && Tree(s.b.disk)
    ensures Handled(cfg, s, Done(s, []), p, at)
  {
    hide Tree, Settled, Frame, AllWrites;
    AllListed(s, Done(s, []), SideA);
    NoChangeFrame(s, p, at);
    NoRowsChange(s, p);
  }

  // --------------------------------------------------- directories made on the way

  /** The directories a copy of the path would make on the other side are there. */
  function Ground(s: State, ev: Event): State {
    var dst := ev.side.Opposite();
    s.WithDisk(dst, MkdirParents(s.Of(dst).disk, ev.path, DEFAULT_MODE))
  }

  /** A file event that changes nothing, or does what it would do with those directories in place. */
  lemma ProcessGrounds(cfg: Config, env: Env, s: State, ev: Event)
    requires ev.kind in {Create, Modify, Attrib} && !ev.isDir && FilesAt(s, ev.path) && Tree(s.a.disk) && Tree(s.b.disk)
    ensures var o, dst := Process(cfg, env, s, ev), s.Of(ev.side.Opposite()).disk;
      || (o.state == s && o.writes == [])
      || (&& ev.path in s.Of(ev.side).disk && ParentsFree(dst, ev.path)
          && o == Process(cfg, env, Ground(s, ev), ev)
          && (ev.path in dst ==> Ground(s, ev) == s)
          && (ev.path !in dst ==> o.writes != []))
  {
    hide Tree, EntryFor, AlreadySynced, SyncAttrs, PropagateFile, DigestOf, Base;
    var p, dst := ev.path, ev.side.Opposite();
    var to := s.Of(dst).disk;
    SyncedAlike(cfg, s, ev);
    if p !in s.Of(ev.side).disk {
      SourceGone(cfg, env, s, ev);
    } else if p in to {
      TreeHasParents(to, p);
      ParentsAlreadyThere(to, p, DEFAULT_MODE);
    } else if ev.kind != Attrib && !AlreadySynced(cfg, s, ev) && ParentsFree(to, p) {
      FileGrounds(cfg, s, ev.side, p, env.clock(p));
    } else {
      NothingComes(cfg, env, s, ev);
    }
  }

  /** The path is new to the other side, and recognised, or an attribute event, or barred by a file above it. */
  lemma NothingComes(cfg: Config, env: Env, s: State, ev: Event)
    requires ev.kind in {Create, Modify, Attrib} && !ev.isDir && ev.path !in s.Of(ev.side.Opposite()).disk
    requires ev.kind == Attrib || AlreadySynced(cfg, s, ev) || !ParentsFree(s.Of(ev.side.Opposite()).disk, ev.path)
    ensures Process(cfg, env, s, ev).state == s && Process(cfg, env, s, ev).writes == []
  {
    hide AlreadySynced, EntryFor, ParentsFree, MkdirParents;
  }

  /** With its source gone an event does nothing. */
  lemma SourceGone(cfg: Config, env: Env, s: State, ev: Event)
    requires ev.kind in {Create, Modify, Attrib} && !ev.isDir && ev.path !in s.Of(ev.side).disk
    ensures Process(cfg, env, s, ev).state == s && Process(cfg, env, s, ev).writes == []
  {
    hide EntryFor, Unchanged, SyncAttrs, ContentDiffers;
  }

  lemma NothingAtNewPlace(d: Disk, p: Path)
    requires p !in d
    ensures p !in MkdirParents(d, p, DEFAULT_MODE)
  {
    if p in MkdirParents(d, p, DEFAULT_MODE) { AncestorsAreAbove(p, p); }
  }

  lemma SyncedAlike(cfg: Config, s: State, ev: Event)
    requires ev.kind != Delete
    ensures AlreadySynced(cfg, Ground(s, ev), ev) <==> AlreadySynced(cfg, s, ev)
  {
    hide Unchanged, MkdirParents;
  }

  lemma MkdirTwice(d: Disk, p: Path, mode: Perms)
    requires ParentsFree(d, p)
    ensures ParentsFree(MkdirParents(d, p, mode), p)
    ensures MkdirParents(MkdirParents(d, p, mode), p, mode) == MkdirParents(d, p, mode)
  {
  }

  lemma CopyGrounds(cfg: Config, s: State, src: Side, p: Path, n: Node)
    requires p in s.Of(src).disk && s.Of(src).disk[p] == n && Carries(n)
    requires p !in s.Of(src.Opposite()).disk && ParentsFree(s.Of(src.Opposite()).disk, p)
    ensures CopyAcross(s, src, p).Success?
    ensures var g := s.WithDisk(src.Opposite(), MkdirParents(s.Of(src.Opposite()).disk, p, DEFAULT_MODE));
      CopyAcross(g, src, p) == CopyAcross(s, src, p)
  {
    hide Base, MkdirParents, ParentsFree;
    MkdirTwice(s.Of(src.Opposite()).disk, p, DEFAULT_MODE);
    NothingAtNewPlace(s.Of(src.Opposite()).disk, p);
  }

  lemma TreeWithParents(d: Disk, p: Path, mode: Perms)
    requires Tree(d) && ParentsFree(d, p)
    ensures Tree(MkdirParents(d, p, mode)) && HasParents(MkdirParents(d, p, mode), p)
  {
    var d' := MkdirParents(d, p, mode);
    forall q | Under(p, q) ensures q in d' && d'[q].Dir? {
      AncestorsAreAbove(p, q);
    }
    forall x, q | x in d' && Under(x, q) ensures q in d' && d'[q].Dir? {
      if x !in d {
        AncestorsAreAbove(p, x);
        UnderTransitive(p, x, q);
      }
    }
  }

  /** g is s with visible directories added on one side where the other has them. */
  ghost predicate GroundedFrom(cfg: Config, s: State, g: State) {
    && g.a.rows == s.a.rows && g.b.rows == s.b.rows && g.conflicts == s.conflicts
    && Tree(g.a.disk) && Tree(g.b.disk)
    && forall x :: Touched(s, g, x) ==> BothDirs(g, x) && !Excluded(cfg.exclude, x) && !FilesAt(s, x)
  }

  predicate Touched(s: State, g: State, x: Path) {
    At(g.a.disk, x) != At(s.a.disk, x) || At(g.b.disk, x) != At(s.b.disk, x)
  }

  lemma GroundIsGrounded(cfg: Config, s: State, ev: Event)
    requires Tree(s.a.disk) && Tree(s.b.disk) && Visible(cfg, ev.path) && ev.path in s.Of(ev.side).disk
    requires ParentsFree(s.Of(ev.side.Opposite()).disk, ev.path)
    ensures GroundedFrom(cfg, s, Ground(s, ev))
    ensures HasParents(Ground(s, ev).a.disk, ev.path) && HasParents(Ground(s, ev).b.disk, ev.path)
  {
    hide Excluded, Clean, Tree;
    var p, g, dst := ev.path, Ground(s, ev), ev.side.Opposite();
    TreeWithParents(s.Of(dst).disk, p, DEFAULT_MODE);
    TreeHasParents(s.Of(ev.side).disk, p);
    forall x | Touched(s, g, x) ensures BothDirs(g, x) && !Excluded(cfg.exclude, x) && !FilesAt(s, x) {
      assert x in Ancestors(p) && x !in s.Of(dst).disk;
      AncestorsAreAbove(p, x);
      if Excluded(cfg.exclude, x) { ExcludedBelow(cfg.exclude, p, x); }
    }
  }

  lemma NothingGrounded(cfg: Config, s: State)
    requires Tree(s.a.disk) && Tree(s.b.disk)
    ensures GroundedFrom(cfg, s, s)
  {
    hide Tree, Excluded;
  }

  lemma SettledGrounded(cfg: Config, s: State, g: State, x: Path)
    requires GroundedFrom(cfg, s, g)
    ensures Settled(cfg, g, x) <==> Settled(cfg, s, x)
    ensures FilesAt(s, x) ==> !Touched(s, g, x)
  {
    hide EntryFor, DigestOf, Excluded, Tree, Compare;
    if Touched(s, g, x) {
      assert BothDirs(g, x) && !FilesAt(s, x);
    } else {
      assert At(g.a.disk, x) == At(s.a.disk, x) && At(g.b.disk, x) == At(s.b.disk, x);
    }
  }

  lemma NamesGrounded(cfg: Config, s: State, g: State, p: Path, at: Stamp)
    requires SavedExcluded(cfg) && GroundedFrom(cfg, s, g) && Clean(p)
    requires NamesFree(s.a.disk, p, at) && NamesFree(s.b.disk, p, at)
    ensures NamesFree(g.a.disk, p, at) && NamesFree(g.b.disk, p, at)
  {
    hide Saves, Excluded, Clean, Tree, FilesAt, BothDirs;
    forall x | !Excluded(cfg.exclude, x) ensures !Saves(x, p, at) {
      VisibleIsNotSaved(cfg, p, x, at);
    }
    forall x | Saves(x, p, at) ensures x !in g.a.disk && x !in g.b.disk {
      assert !Touched(s, g, x);
    }
  }

  lemma ReadyGrounded(cfg: Config, env: Env, s: State, g: State, e: Event)
    requires SavedExcluded(cfg) && GroundedFrom(cfg, s, g) && EventReady(cfg, env, s, e)
    ensures EventReady(cfg, env, g, e)
  {
    hide GroundedFrom, Settled, NamesFree, Excluded, Clean, DigestOf;
    SettledGrounded(cfg, s, g, e.path);
    if NamesFree(s.a.disk, e.path, env.clock(e.path)) && NamesFree(s.b.disk, e.path, env.clock(e.path)) {
      NamesGrounded(cfg, s, g, e.path, env.clock(e.path));
    }
  }

  lemma FileGrounds(cfg: Config, s: State, src: Side, p: Path, at: Stamp)
    requires p in s.Of(src).disk && Carries(s.Of(src).disk[p])
    requires p !in s.Of(src.Opposite()).disk && ParentsFree(s.Of(src.Opposite()).disk, p)
    ensures var g := s.WithDisk(src.Opposite(), MkdirParents(s.Of(src.Opposite()).disk, p, DEFAULT_MODE));
      PropagateFile(cfg, g, src, p, at) == PropagateFile(cfg, s, src, p, at)
    ensures PropagateFile(cfg, s, src, p, at).writes != []
  {
    hide CopyAcross, EntryFor, MkdirParents, ParentsFree, ResolveConflict;
    CopyGrounds(cfg, s, src, p, s.Of(src).disk[p]);
    NothingAtNewPlace(s.Of(src.Opposite()).disk, p);
  }

  /**
   * Handling an event of a file or link. Where it writes, the missing directories above the path come
   * first; then the path is written at most once, and settled. At a settled path it does nothing.
   */
  lemma EventHandled(cfg: Config, env: Env, s: State, ev: Event)
    requires SavedExcluded(cfg) && EventReady(cfg, env, s, ev) && Tree(s.a.disk) && Tree(s.b.disk)
    ensures var o := Process(cfg, env, s, ev);
      var g := if o.writes == [] then s else Ground(s, ev);
      GroundedFrom(cfg, s, g) && o == Process(cfg, env, g, ev) && Handled(cfg, g, o, ev.path, env.clock(ev.path))
  {
    hide Tree, NamesFree, Settled, HasParents, Excluded, Clean, Process, Ground, ParentsFree, Handled, GroundedFrom;
    var o := Process(cfg, env, s, ev);
    NothingGrounded(cfg, s);
    ProcessGrounds(cfg, env, s, ev);
    if o.state == s && o.writes == [] {
      IdleHandled(cfg, env, s, ev);
    } else {
      GroundIsGrounded(cfg, s, ev);
      var g := Ground(s, ev);
      GroundKeepsSource(s, ev);
      ReadyGrounded(cfg, env, s, g, ev);
      GroundedTrees(cfg, s, g);
      HandledInPlace(cfg, env, g, ev);
    }
  }

  lemma GroundKeepsSource(s: State, ev: Event)
    ensures Ground(s, ev).Of(ev.side) == s.Of(ev.side)
  {
  }

  lemma GroundedTrees(cfg: Config, s: State, g: State)
    requires GroundedFrom(cfg, s, g)
    ensures Tree(g.a.disk) && Tree(g.b.disk)
  {
    hide Tree, Excluded;
  }

  lemma IdleHandled(cfg: Config, env: Env, s: State, ev: Event)
    requires ev.kind in {Create, Modify, Attrib} && Tree(s.a.disk) && Tree(s.b.disk)
    requires Process(cfg, env, s, ev).state == s && Process(cfg, env, s, ev).writes == []
    ensures Handled(cfg, s, Process(cfg, env, s, ev), ev.path, env.clock(ev.path))
  {
    hide Tree, Settled, Process, Frame, AllWrites;
    NothingHandled(cfg, s, ev.path, env.clock(ev.path));
    AllListed(s, Process(cfg, env, s, ev), SideA);
    if Settled(cfg, s, ev.path) { SettledIsNoOp(cfg, env, s, ev); }
  }

  // ------------------------------------------------------- events that make no directory

  /** Handling the event makes directories on the other side, to copy the file into. */
  ghost predicate MakesDirs(cfg: Config, s: State, ev: Event) {
    var dst := s.Of(ev.side.Opposite()).disk;
    && (ev.kind == Create || ev.kind == Modify) && ev.path in s.Of(ev.side).disk && !AlreadySynced(cfg, s, ev)
    && ParentsFree(dst, ev.path) && !HasParents(dst, ev.path)
  }

  /** Then it is handled in place. */
  lemma InPlaceHandled(cfg: Config, env: Env, s: State, ev: Event)
    requires SavedExcluded(cfg) && EventReady(cfg, env, s, ev) && Tree(s.a.disk) && Tree(s.b.disk)
    requires !MakesDirs(cfg, s, ev)
    ensures Handled(cfg, s, Process(cfg, env, s, ev), ev.path, env.clock(ev.path))
  {
    hide Tree, NamesFree, Settled, HasParents, Excluded, Clean, Process, Ground, ParentsFree, Handled, GroundedFrom,
      AlreadySynced, SameDigests;
    EventHandled(cfg, env, s, ev);
    ProcessGrounds(cfg, env, s, ev);
    var dst := s.Of(ev.side.Opposite()).disk;
    if Process(cfg, env, s, ev).writes != [] {
      if ev.path !in dst {
        if ev.kind == Attrib || AlreadySynced(cfg, s, ev) { NothingComes(cfg, env, s, ev); }
        GroundedAlready(s, ev);
      }
    }
  }

  lemma GroundedAlready(s: State, ev: Event)
    requires HasParents(s.Of(ev.side.Opposite()).disk, ev.path)
    ensures Ground(s, ev) == s
  {
    hide HasParents, MkdirParents;
    ParentsAlreadyThere(s.Of(ev.side.Opposite()).disk, ev.path, DEFAULT_MODE);
  }

  lemma ParentsSame(cfg: Config, d: Disk, d': Disk, p: Path, at: Stamp, x: Path)
    requires DiskKept(d, d', p, false, at) && SavedExcluded(cfg) && Visible(cfg, p) && Visible(cfg, x)
    requires p in d ==> !d[p].Dir? && p in d' && !d'[p].Dir?
    ensures HasParents(d, x) ==> HasParents(d', x)
    ensures ParentsFree(d', x) ==> ParentsFree(d, x)
  {
    hide Saves, Excluded, Clean;
    forall q | Under(x, q) ensures q != p ==> At(d', q) == At(d, q) {
      if Excluded(cfg.exclude, q) { ExcludedBelow(cfg.exclude, x, q); }
      VisibleIsNotSaved(cfg, p, q, at);
    }
    forall q ensures q in Ancestors(x) <==> Under(x, q) {
      AncestorsAreAbove(x, q);
    }
    if ParentsFree(d', x) {
      forall q | q in Ancestors(x) && q in d ensures d[q].Dir? {
        assert q != p ==> At(d', q) == At(d, q);
      }
    }
    if HasParents(d, x) {
      forall q | Under(x, q) ensures q in d' && d'[q].Dir? {
        assert At(d', q) == At(d, q);
      }
    }
  }

  lemma SyncedSame(cfg: Config, s: State, t: State, e: Event)
    requires At(t.a.disk, e.path) == At(s.a.disk, e.path) && At(t.b.disk, e.path) == At(s.b.disk, e.path)
    requires Sync.Find(t.a.rows, e.path) == Sync.Find(s.a.rows, e.path)
    requires Sync.Find(t.b.rows, e.path) == Sync.Find(s.b.rows, e.path)
    ensures AlreadySynced(cfg, t, e) <==> AlreadySynced(cfg, s, e)
    ensures e.path in t.Of(e.side).disk <==> e.path in s.Of(e.side).disk
  {
    hide Unchanged, Compare;
  }

  /** Where the path is on both sides, and the trees are well formed, no directory is missing. */
  lemma NoDirsAt(cfg: Config, s: State, e: Event)
    requires e.path in s.a.disk && e.path in s.b.disk && Tree(s.a.disk) && Tree(s.b.disk)
    ensures !MakesDirs(cfg, s, e)
  {
    hide Tree, AlreadySynced, HasParents, ParentsFree;
    TreeHasParents(s.a.disk, e.path);
    TreeHasParents(s.b.disk, e.path);
  }

  /** An event that makes no directory still makes none after another one has been handled. */
  lemma NoDirsKept(cfg: Config, env: Env, s: State, o: Outcome, p: Path, e: Event)
    requires SavedExcluded(cfg) && Visible(cfg, p) && FilesAt(s, p) && Visible(cfg, e.path)
    requires Tree(s.a.disk) && Tree(s.b.disk) && Handled(cfg, s, o, p, env.clock(p))
    requires !MakesDirs(cfg, s, e)
    ensures !MakesDirs(cfg, o.state, e)
  {
    hide Tree, Visible, Settled, AllWrites, AlreadySynced, HasParents, ParentsFree, WritesOnce, RowsKept, ConflictsKept,
      DiskKept;
    var at, dst := env.clock(p), e.side.Opposite();
    if o.writes != [] { SettledFacts(cfg, o.state, p); }
    if e.path == p {
      if o.writes != [] {
        NoDirsAt(cfg, o.state, e);
      } else if o.state != s {
        NoDirsAt(cfg, o.state, e);
      }
    } else {
      SettledKept(cfg, s, o.state, p, at, e.path);
      SyncedSame(cfg, s, o.state, e);
      FilesStay(cfg, s, o, p, at, dst);
      ParentsSame(cfg, s.Of(dst).disk, o.state.Of(dst).disk, p, at, e.path);
    }
  }

  lemma FilesStay(cfg: Config, s: State, o: Outcome, p: Path, at: Stamp, side: Side)
    requires FilesAt(s, p) && Handled(cfg, s, o, p, at)
    ensures var d, d' := s.Of(side).disk, o.state.Of(side).disk; p in d ==> !d[p].Dir? && p in d' && !d'[p].Dir?
  {
    hide AllWrites, WritesOnce, Frame, RowsElsewhereKept;
    if o.writes != [] { SettledFacts(cfg, o.state, p); }
  }

  // -------------------------------------------------------------- what every run keeps

  /** An event of a file or link that makes no directory. */
  ghost predicate Harmless(cfg: Config, env: Env, s: State, ev: Event) {
    EventReady(cfg, env, s, ev) && !MakesDirs(cfg, s, ev)
  }

  ghost predicate PathLogged(cfg: Config, env: Env, s: State, x: Path) {
    (Visible(cfg, x) && Settled(cfg, s, x)) || exists q :: Visible(cfg, q) && Settled(cfg, s, q) && Saves(x, q, env.clock(q))
  }

  ghost predicate Sound(cfg: Config, env: Env, c: System) {
    && SavedExcluded(cfg) && Tree(c.state.a.disk) && Tree(c.state.b.disk)
    && (forall e :: e in c.pending ==> Harmless(cfg, env, c.state, e))
    && (forall w :: w in c.log ==> PathLogged(cfg, env, c.state, w.1))
    && (forall i, j :: 0 <= i < j < |c.log| ==> c.log[i].1 != c.log[j].1)
  }

  lemma SettledKept(cfg: Config, s: State, t: State, p: Path, at: Stamp, x: Path)
    requires SavedExcluded(cfg) && Visible(cfg, p) && Visible(cfg, x) && x != p
    requires DiskKept(s.a.disk, t.a.disk, p, false, at)
    requires DiskKept(s.b.disk, t.b.disk, p, false, at) && RowsElsewhereKept(s, t, p)
    ensures At(t.a.disk, x) == At(s.a.disk, x) && At(t.b.disk, x) == At(s.b.disk, x)
    ensures Settled(cfg, t, x) <==> Settled(cfg, s, x)
  {
    hide EntryFor, DigestOf, Saves, Excluded, Clean;
    VisibleIsNotSaved(cfg, p, x, at);
    assert At(t.a.disk, x) == At(s.a.disk, x) && At(t.b.disk, x) == At(s.b.disk, x);
    assert Sync.Find(t.a.rows, x) == Sync.Find(s.a.rows, x) && Sync.Find(t.b.rows, x) == Sync.Find(s.b.rows, x);
  }

  /** Another pending event stays worth handling. */
  lemma ReadyKept(cfg: Config, env: Env, s: State, o: Outcome, p: Path, e: Event)
    requires SavedExcluded(cfg) && Visible(cfg, p) && FilesAt(s, p)
    requires Handled(cfg, s, o, p, env.clock(p)) && EventReady(cfg, env, s, e)
    ensures EventReady(cfg, env, o.state, e)
  {
    hide EntryFor, DigestOf, Saves, Excluded, Clean, Settled, RowsKept, ConflictsKept, Tree, HasParents,
      NamesFree;
    var at := env.clock(p);
    if e.path != p {
      SettledKept(cfg, s, o.state, p, at, e.path);
      if e.kind != Attrib && !Settled(cfg, s, e.path) {
        NamesFreeStep(cfg, s.a.disk, o.state.a.disk, p, e.path, false, at, env.clock(e.path));
        NamesFreeStep(cfg, s.b.disk, o.state.b.disk, p, e.path, false, at, env.clock(e.path));
      }
    } else if o.writes != [] {
      SettledFacts(cfg, o.state, p);
    }
  }

  lemma SettledFacts(cfg: Config, s: State, p: Path)
    requires Settled(cfg, s, p)
    ensures FilesAt(s, p) && p in s.a.disk && p in s.b.disk && SameDigests(cfg, s, p)
  {
  }

  // -------------------------------------------------------------------- one step

  lemma Without(pending: seq<Event>, i: nat)
    requires i < |pending|
    ensures forall e :: e in pending[..i] + pending[i + 1..] ==> e in pending
  {
  }

  lemma EchoReady(cfg: Config, env: Env, s: State, o: Outcome, p: Path, e: Event, echoes: seq<Event>)
    requires SavedExcluded(cfg) && Visible(cfg, p)
    requires Handled(cfg, s, o, p, env.clock(p)) && EchoesOf(cfg, echoes, o.state, o.writes) && e in echoes
    ensures e.path == p && Settled(cfg, o.state, p) && EventReady(cfg, env, o.state, e)
  {
    hide EntryFor, DigestOf, Saves, Excluded, Clean, Frame, RowsElsewhereKept, NamesFree;
    EchoIsAtPath(cfg, o.writes, p, env.clock(p), e);
    SettledFacts(cfg, o.state, p);
  }

  lemma EchoIsAtPath(cfg: Config, writes: seq<(Side, Path)>, p: Path, at: Stamp, e: Event)
    requires SavedExcluded(cfg) && Visible(cfg, p) && WritesOnce(writes, p, at)
    requires (e.side, e.path) in writes && Visible(cfg, e.path)
    ensures e.path == p
  {
    hide Saves, Excluded, Clean;
    VisibleIsNotSaved(cfg, p, e.path, at);
  }

  /** After handling an event: every event still pending is harmless. */
  lemma PendingHarmless(cfg: Config, env: Env, c: System, c': System, i: nat, echoes: seq<Event>)
    requires Sound(cfg, env, c) && i < |c.pending| && c.pending[i].kind != Move && Handles(cfg, env, c, c', i, echoes)
    ensures forall e :: e in c'.pending ==> Harmless(cfg, env, c'.state, e)
    ensures Handled(cfg, c.state, Process(cfg, env, c.state, c.pending[i]), c.pending[i].path,
              env.clock(c.pending[i].path))
  {
    hide Process, EventReady, MakesDirs, PathLogged, EchoesOf, Handled, Tree, Visible;
    var ev := c.pending[i];
    assert ev in c.pending;
    InPlaceHandled(cfg, env, c.state, ev);
    var o := Process(cfg, env, c.state, ev);
    HandledListed(cfg, c.state, o, ev.path, env.clock(ev.path));
    Without(c.pending, i);
    forall e | e in c'.pending ensures Harmless(cfg, env, c'.state, e) {
      if e in echoes {
        EchoHarmless(cfg, env, c.state, o, ev, e, echoes);
      } else {
        HarmlessKept(cfg, env, c.state, o, ev, e);
      }
    }
  }

  lemma HandledListed(cfg: Config, s: State, o: Outcome, p: Path, at: Stamp)
    requires Handled(cfg, s, o, p, at)
    ensures AllWrites(s, o) == o.writes
  {
    hide AllWrites, Frame, RowsElsewhereKept, WritesOnce, Settled;
  }

  lemma HarmlessKept(cfg: Config, env: Env, s: State, o: Outcome, ev: Event, e: Event)
    requires SavedExcluded(cfg) && Tree(s.a.disk) && Tree(s.b.disk) && EventReady(cfg, env, s, ev)
    requires Handled(cfg, s, o, ev.path, env.clock(ev.path)) && Harmless(cfg, env, s, e)
    ensures Harmless(cfg, env, o.state, e)
  {
    hide Handled, MakesDirs, Tree, Settled, SameDigests, NamesFree, Excluded, Clean;
    ReadyKept(cfg, env, s, o, ev.path, e);
    NoDirsKept(cfg, env, s, o, ev.path, e);
  }

  lemma EchoHarmless(cfg: Config, env: Env, s: State, o: Outcome, ev: Event, e: Event, echoes: seq<Event>)
    requires SavedExcluded(cfg) && EventReady(cfg, env, s, ev) && Handled(cfg, s, o, ev.path, env.clock(ev.path))
    requires EchoesOf(cfg, echoes, o.state, o.writes) && e in echoes
    ensures Harmless(cfg, env, o.state, e)
  {
    hide Handled, MakesDirs, Tree, Settled, SameDigests, NamesFree, Excluded, Clean, EchoesOf;
    EchoReady(cfg, env, s, o, ev.path, e, echoes);
    SettledFacts(cfg, o.state, ev.path);
    HandledTrees(cfg, s, o, ev.path, env.clock(ev.path));
    NoDirsAt(cfg, o.state, e);
  }

  /** Logged paths stay logged: what is settled stays settled. */
  lemma LoggedKept(cfg: Config, env: Env, s: State, o: Outcome, p: Path, x: Path)
    requires SavedExcluded(cfg) && Visible(cfg, p) && Handled(cfg, s, o, p, env.clock(p)) && PathLogged(cfg, env, s, x)
    ensures PathLogged(cfg, env, o.state, x)
  {
    hide EntryFor, DigestOf, Saves, Visible, Settled, RowsKept, ConflictsKept, Tree, RowsElsewhereKept,
      WritesOnce, DiskKept;
    if Visible(cfg, x) && Settled(cfg, s, x) {
      SettledStays(cfg, s, o, p, env.clock(p), x);
    } else {
      var q :| Visible(cfg, q) && Settled(cfg, s, q) && Saves(x, q, env.clock(q));
      SettledStays(cfg, s, o, p, env.clock(p), q);
    }
  }

  lemma SettledStays(cfg: Config, s: State, o: Outcome, p: Path, at: Stamp, x: Path)
    requires SavedExcluded(cfg) && Visible(cfg, p) && Handled(cfg, s, o, p, at) && Settled(cfg, s, x) && Visible(cfg, x)
    ensures Settled(cfg, o.state, x)
  {
    hide Settled, Visible, RowsElsewhereKept, WritesOnce, DiskKept, Tree, RowsKept;
    if x != p { SettledKept(cfg, s, o.state, p, at, x); }
  }

  /** A path written now was not written before. */
  lemma WrittenAnew(cfg: Config, env: Env, s: State, o: Outcome, p: Path, w: Path, x: Path)
    requires SavedExcluded(cfg) && Visible(cfg, p) && Handled(cfg, s, o, p, env.clock(p)) && o.writes != []
    requires w == p || Saves(w, p, env.clock(p))
    requires PathLogged(cfg, env, s, x)
    ensures w != x
  {
    hide Settled, RowsElsewhereKept, WritesOnce, Frame, Saves, Excluded, Clean;
    assert !Settled(cfg, s, p);
    if w == x {
      if Visible(cfg, x) && Settled(cfg, s, x) {
        VisibleIsNotSaved(cfg, p, x, env.clock(p));
        assert false;
      } else {
        var q :| Visible(cfg, q) && Settled(cfg, s, q) && Saves(x, q, env.clock(q));
        if w == p {
          VisibleIsNotSaved(cfg, q, p, env.clock(q));
        } else {
          SavesDisjoint(cfg, x, p, q, env.clock(p), env.clock(q));
        }
      }
    }
  }

  lemma NewlyLogged(cfg: Config, env: Env, s: State, o: Outcome, p: Path, w: Path)
    requires Visible(cfg, p) && Handled(cfg, s, o, p, env.clock(p)) && o.writes != []
    requires w == p || Saves(w, p, env.clock(p))
    ensures PathLogged(cfg, env, o.state, w)
  {
    hide Settled, RowsElsewhereKept, WritesOnce, Frame, Saves, Visible;
  }

  /** The log after handling: all its paths settled or saved, no path twice. */
  lemma LogSound(cfg: Config, env: Env, c: System, o: Outcome, p: Path)
    requires SavedExcluded(cfg) && Visible(cfg, p) && Handled(cfg, c.state, o, p, env.clock(p))
    requires forall w :: w in c.log ==> PathLogged(cfg, env, c.state, w.1)
    requires forall i, j :: 0 <= i < j < |c.log| ==> c.log[i].1 != c.log[j].1
    ensures var log := c.log + o.writes;
      && (forall w :: w in log ==> PathLogged(cfg, env, o.state, w.1))
      && (forall i, j :: 0 <= i < j < |log| ==> log[i].1 != log[j].1)
  {
    hide PathLogged, Handled, Visible, Saves;
    var at, log := env.clock(p), c.log + o.writes;
    WritesShape(cfg, c.state, o, p, at);
    forall w | w in log ensures PathLogged(cfg, env, o.state, w.1) {
      if w in c.log { LoggedKept(cfg, env, c.state, o, p, w.1); } else { NewlyLogged(cfg, env, c.state, o, p, w.1); }
    }
    forall i, j | 0 <= i < |c.log| && 0 <= j < |o.writes| ensures c.log[i].1 != o.writes[j].1 {
      assert o.writes[j] in o.writes && c.log[i] in c.log;
      WrittenAnew(cfg, env, c.state, o, p, o.writes[j].1, c.log[i].1);
    }
  }

  lemma WritesShape(cfg: Config, s: State, o: Outcome, p: Path, at: Stamp)
    requires Handled(cfg, s, o, p, at)
    ensures |o.writes| <= 2
    ensures forall w :: w in o.writes ==> w.1 == p || Saves(w.1, p, at)
    ensures |o.writes| == 2 ==> o.writes[0].1 != o.writes[1].1
  {
    hide Settled, RowsElsewhereKept, Frame, Saves;
  }

  lemma SoundStep(cfg: Config, env: Env, c: System, c': System)
    requires Sound(cfg, env, c) && Step(cfg, env, c, c')
    ensures Sound(cfg, env, c')
  {
    hide Harmless, PathLogged, Process, Tree, Visible, Handled, EchoesOf, AllWrites;
    var i :| 0 <= i < |c.pending| && c.pending[i].kind != Move &&
      (Drops(c, c', i) || exists echoes :: Handles(cfg, env, c, c', i, echoes));
    Without(c.pending, i);
    if !Drops(c, c', i) {
      var echoes :| Handles(cfg, env, c, c', i, echoes);
      PendingHarmless(cfg, env, c, c', i, echoes);
      var p, o := c.pending[i].path, Process(cfg, env, c.state, c.pending[i]);
      EventPath(cfg, env, c, i);
      HandledListed(cfg, c.state, o, p, env.clock(p));
      LogSound(cfg, env, c, o, p);
      HandledTrees(cfg, c.state, o, p, env.clock(p));
    }
  }

  lemma EventPath(cfg: Config, env: Env, c: System, i: nat)
    requires Sound(cfg, env, c) && i < |c.pending|
    ensures Visible(cfg, c.pending[i].path) && EventReady(cfg, env, c.state, c.pending[i]) && c.pending[i].kind != Move
  {
    hide Visible, Settled, FilesAt, NamesFree, MakesDirs;
    assert c.pending[i] in c.pending;
  }

  lemma HandledTrees(cfg: Config, s: State, o: Outcome, p: Path, at: Stamp)
    requires Handled(cfg, s, o, p, at)
    ensures Tree(o.state.a.disk) && Tree(o.state.b.disk)
  {
    hide Settled, RowsElsewhereKept, Saves, WritesOnce;
    FrameKeepsTrees(s, o.state, p, false, at);
  }

  // ----------------------------------------------------------------- every run ends

  /** The paths some event still asks for and that are not settled. */
  ghost function Open(cfg: Config, c: System): set<Path> {
    set e | e in c.pending && !Settled(cfg, c.state, e.path) :: e.path
  }

  lemma NoEchoes(cfg: Config, echoes: seq<Event>, t: State)
    requires EchoesOf(cfg, echoes, t, [])
    ensures echoes == []
  {
    hide Visible;
    FirstIsIn(echoes);
  }

  /** Handling an event settles its path for good, or writes nothing and leaves no more behind than it found. */
  lemma HandledOpens(cfg: Config, env: Env, c: System, c': System, i: nat, echoes: seq<Event>)
    requires Sound(cfg, env, c) && i < |c.pending| && c.pending[i].kind != Move && Handles(cfg, env, c, c', i, echoes)
    ensures Open(cfg, c') <= Open(cfg, c)
    ensures (c.pending[i].path in Open(cfg, c) && c.pending[i].path !in Open(cfg, c')) || |c'.pending| < |c.pending|
  {
    hide Process, EventReady, PathLogged, Visible, Handled, Settled, Tree, AllWrites;
    var ev := c.pending[i];
    var o, p := Process(cfg, env, c.state, ev), ev.path;
    EventPath(cfg, env, c, i);
    PendingHarmless(cfg, env, c, c', i, echoes);
    HandledListed(cfg, c.state, o, p, env.clock(p));
    Without(c.pending, i);
    if o.writes != [] { HandledSettles(cfg, c.state, o, p, env.clock(p)); }
    forall e | e in c'.pending && !Settled(cfg, c'.state, e.path) ensures e.path in Open(cfg, c) {
      if e in echoes {
        EchoSettled(cfg, env, c.state, o, p, e, echoes);
      } else {
        HarmlessIsReady(cfg, env, c, e);
        OthersOpen(cfg, env, c.state, o, p, e);
      }
    }
    if o.writes != [] {
      assert ev in c.pending;
    } else {
      NoEchoes(cfg, echoes, o.state);
    }
  }

  lemma HarmlessIsReady(cfg: Config, env: Env, c: System, e: Event)
    requires Sound(cfg, env, c) && e in c.pending
    ensures EventReady(cfg, env, c.state, e)
  {
    hide EventReady, MakesDirs, PathLogged, Tree;
  }

  lemma HandledSettles(cfg: Config, s: State, o: Outcome, p: Path, at: Stamp)
    requires Handled(cfg, s, o, p, at) && o.writes != []
    ensures Settled(cfg, o.state, p) && !Settled(cfg, s, p)
  {
    hide Settled, RowsElsewhereKept, Saves, WritesOnce, Frame;
  }

  lemma EchoSettled(cfg: Config, env: Env, s: State, o: Outcome, p: Path, e: Event, echoes: seq<Event>)
    requires SavedExcluded(cfg) && Visible(cfg, p) && Handled(cfg, s, o, p, env.clock(p))
    requires EchoesOf(cfg, echoes, o.state, o.writes) && e in echoes
    ensures Settled(cfg, o.state, e.path)
  {
    hide Settled, RowsElsewhereKept, Frame, Visible;
    EchoIsAtPath(cfg, o.writes, p, env.clock(p), e);
  }

  lemma OthersOpen(cfg: Config, env: Env, s: State, o: Outcome, p: Path, e: Event)
    requires SavedExcluded(cfg) && Visible(cfg, p) && Handled(cfg, s, o, p, env.clock(p)) && EventReady(cfg, env, s, e)
    requires !Settled(cfg, o.state, e.path)
    ensures !Settled(cfg, s, e.path)
  {
    hide Settled, Visible, Handled, FilesAt, NamesFree;
    if Settled(cfg, s, e.path) { SettledStays(cfg, s, o, p, env.clock(p), e.path); }
  }

  lemma StepDescends(cfg: Config, env: Env, c: System, c': System)
    requires Sound(cfg, env, c) && Step(cfg, env, c, c')
    ensures Open(cfg, c') < Open(cfg, c) || (Open(cfg, c') <= Open(cfg, c) && |c'.pending| < |c.pending|)
  {
    hide Sound, Process, Settled, EchoesOf, Open, AllWrites;
    var i :| 0 <= i < |c.pending| && c.pending[i].kind != Move &&
      (Drops(c, c', i) || exists echoes :: Handles(cfg, env, c, c', i, echoes));
    Without(c.pending, i);
    if !Drops(c, c', i) {
      var echoes :| Handles(cfg, env, c, c', i, echoes);
      HandledOpens(cfg, env, c, c', i, echoes);
    } else {
      DropOpens(cfg, c, c', i);
    }
  }

  lemma DropOpens(cfg: Config, c: System, c': System, i: nat)
    requires i < |c.pending| && Drops(c, c', i)
    ensures Open(cfg, c') <= Open(cfg, c) && |c'.pending| < |c.pending|
  {
    hide Settled;
    Without(c.pending, i);
  }

  lemma RunContinues(cfg: Config, env: Env, run: nat -> System, n: nat) returns (m: nat)
    requires Sound(cfg, env, run(n))
    ensures m >= n && !Step(cfg, env, run(m), run(m + 1))
    decreases |Open(cfg, run(n))|, |run(n).pending|
  {
    hide Sound, Step, Open;
    if !Step(cfg, env, run(n), run(n + 1)) {
      m := n;
    } else {
      SoundStep(cfg, env, run(n), run(n + 1));
      StepDescends(cfg, env, run(n), run(n + 1));
      SmallerSet(Open(cfg, run(n + 1)), Open(cfg, run(n)));
      m := RunContinues(cfg, env, run, n + 1);
    }
  }

  lemma SmallerSet(x: set<Path>, y: set<Path>)
    requires x <= y
    ensures |x| <= |y| && (x < y ==> |x| < |y|)
  {
    assert y == x + (y - x);
  }

  /** Some run from here goes on for ever. */
  ghost predicate Endless(cfg: Config, env: Env, c: System) {
    exists run: nat -> System :: run(0) == c && forall n: nat :: Step(cfg, env, run(n), run(n + 1))
  }

  /**
   * No synchronisation loop, even without the guard, where no pending event makes a directory. Whatever
   * the echoes of each write, and whichever events are dropped, no run goes on for ever.
   */
  lemma EveryRunEnds(cfg: Config, env: Env, c: System)
    requires Sound(cfg, env, c)
    ensures !Endless(cfg, env, c)
  {
    hide Sound, Step;
    forall run: nat -> System | run(0) == c ensures exists n: nat :: !Step(cfg, env, run(n), run(n + 1)) {
      var n := RunContinues(cfg, env, run, 0);
    }
  }

  ghost predicate IsRun(cfg: Config, env: Env, run: seq<System>) {
    run != [] && forall i :: 0 <= i < |run| - 1 ==> Step(cfg, env, run[i], run[i + 1])
  }

  /** Over a whole run no path is written twice, not even a saved copy. */
  lemma {:induction false} NothingWrittenTwice(cfg: Config, env: Env, run: seq<System>)
    requires IsRun(cfg, env, run) && Sound(cfg, env, run[0])
    ensures Sound(cfg, env, run[|run| - 1])
    ensures var log := run[|run| - 1].log; forall i, j :: 0 <= i < j < |log| ==> log[i].1 != log[j].1
  {
    hide Step, PathLogged, Harmless;
    if |run| > 1 {
      hide Sound;
      var init := run[..|run| - 1];
      assert IsRun(cfg, env, init) by {
        assert forall i :: 0 <= i < |init| - 1 ==> Step(cfg, env, init[i], init[i + 1]);
      }
      NothingWrittenTwice(cfg, env, init);
      SoundStep(cfg, env, run[|run| - 2], run[|run| - 1]);
      SoundLog(cfg, env, run[|run| - 1]);
    }
  }

  lemma SoundLog(cfg: Config, env: Env, c: System)
    requires Sound(cfg, env, c)
    ensures forall i, j :: 0 <= i < j < |c.log| ==> c.log[i].1 != c.log[j].1
  {
    hide PathLogged, Harmless;
  }

  // ------------------------------------------------------------- new directories

  /** The table as the engine keeps it: a directory is recorded without a digest. */
  predicate DirRowsPlain(s: State, p: Path) {
    && (p in s.a.rows ==> s.a.rows[p].digest.IsZero())
    && (p in s.b.rows ==> s.b.rows[p].digest.IsZero())
  }

  /** A directory the other side lacks arrives there with all below it, recorded on both sides. */
  lemma DirCreationHandled(cfg: Config, env: Env, s: State, ev: Event)
    requires (ev.kind == Create || ev.kind == Modify) && ev.isDir
    requires LoneDir(s, ev.side, ev.path) && DirRowsPlain(s, ev.path)
    ensures var o := Process(cfg, env, s, ev);
      && o.error.None? && o.writes == [(ev.side.Opposite(), ev.path)]
      && Frame(s, o.state, ev.path, true, env.clock(ev.path)) && DirCopied(cfg, s, o.state, ev.side, ev.path)
  {
    hide PropagateDir, DirCopied, Frame, HasEntries, Tree, HasParents, Unchanged;
    var src, p, at := ev.side, ev.path, env.clock(ev.path);
    if HasEntries(s.Of(src).disk, p) { FullDirCopied(cfg, s, src, p, at); } else { EmptyDirCopied(cfg, s, src, p, at); }
    DirWrites(cfg, s, src, p);
  }

  lemma DirWrites(cfg: Config, s: State, src: Side, p: Path)
    requires PropagateDir(cfg, s, src, p).error.None?
    ensures PropagateDir(cfg, s, src, p).writes == [(src.Opposite(), p)]
  {
    hide CopyTree, Mkdir, HasEntries, EntryFor, RecordSubtree;
  }

  // ------------------------------------------------------ bursts merged by the debouncer

  lemma LikeKindsLikewise(cfg: Config, env: Env, s: State, e: Event, f: Event)
    requires e.side == f.side && e.path == f.path && e.isDir == f.isDir
    requires (Bursts.Writes(e) && Bursts.Writes(f)) || (e.kind == Delete && f.kind == Delete)
    ensures Process(cfg, env, s, e) == Process(cfg, env, s, f)
  {
    hide PropagateContent, PropagateDelete, Unchanged;
  }

  /** Unless an attribute event comes last, a merged burst is handled like its last event. */
  lemma BurstHandledAsLast(cfg: Config, env: Env, s: State, burst: seq<Event>)
    requires burst != [] && burst[|burst| - 1].kind != Attrib
    requires forall e :: e in burst ==>
      e.kind != Move && e.side == burst[0].side && e.path == burst[0].path && e.isDir == burst[0].isDir
    ensures MergeAll(burst).kind != Move
    ensures Process(cfg, env, s, MergeAll(burst)) == Process(cfg, env, s, burst[|burst| - 1])
  {
    hide MergeAll, Process;
    LastDecides(burst);
    MergeKeepsPath(burst, burst[0]);
    LikeKindsLikewise(cfg, env, s, MergeAll(burst), burst[|burst| - 1]);
  }

  /** An attribute event neither creates a file or link on the other side nor changes its content there. */
  lemma AttribKeepsContent(cfg: Config, env: Env, s: State, ev: Event)
    requires ev.kind == Attrib && FilesAt(s, ev.path)
    ensures var before, after := s.Of(ev.side.Opposite()).disk, Process(cfg, env, s, ev).state.Of(ev.side.Opposite()).disk;
      && (ev.path in after <==> ev.path in before)
      && (ev.path in before ==> SameVersion(after[ev.path], before[ev.path]))
  {
    hide AlreadySynced, EntryFor;
    var p, from, to := ev.path, s.Of(ev.side).disk, s.Of(ev.side.Opposite()).disk;
    if p in to {
      SameVersionReflexive(to[p]);
      if p in from { AttrsKeepVersion(from[p], to[p]); }
    }
  }

  /**
   * When one does come last, the content the burst stands for does not reach the other side: a path the
   * other side lacks stays missing there, and a file it has keeps its version.
   */
  lemma TrailingAttribHidesContent(cfg: Config, env: Env, s: State, burst: seq<Event>)
    requires burst != [] && burst[|burst| - 1].kind == Attrib && FilesAt(s, burst[0].path)
    requires forall e :: e in burst ==>
      e.kind != Move && e.side == burst[0].side && e.path == burst[0].path && e.isDir == burst[0].isDir
    ensures MergeAll(burst).kind == Attrib
    ensures var dst, p := burst[0].side.Opposite(), burst[0].path;
      var before, after := s.Of(dst).disk, Process(cfg, env, s, MergeAll(burst)).state.Of(dst).disk;
      && (p in after <==> p in before) && (p in before ==> SameVersion(after[p], before[p]))
  {
    hide MergeAll, Process, FilesAt;
    LastDecides(burst);
    MergeKeepsPath(burst, burst[0]);
    AttribKeepsContent(cfg, env, s, MergeAll(burst));
  }
}
