// What one event changes, against the first component of its path by which events are spread over
// workers (internal/engine/dispatch.go:13-30). Exactly when the engine stays below that component.

module Locality {
  import opened Actions
  import opened Digests
  import opened Disks
  import opened Events
  import opened Exclude
  import opened Frames
  import opened Like
  import opened Names
  import opened Nodes
  import opened Options
  import opened Partitions
  import opened Paths
  import opened Removal
  import SavedCopies
  import opened Settings
  import opened Store
  import opened Sync
  import Text

  /** Node, row and conflict row of x are the same in both states. */
  predicate EqAt(s: State, t: State, x: Path) {
    && At(s.a.disk, x) == At(t.a.disk, x) && At(s.b.disk, x) == At(t.b.disk, x)
    && Sync.Find(s.a.rows, x) == Sync.Find(t.a.rows, x) && Sync.Find(s.b.rows, x) == Sync.Find(t.b.rows, x)
    && Sync.Find(s.conflicts, x) == Sync.Find(t.conflicts, x)
  }

  /** p, what lies below it, and the directories it sits in. */
  predicate Around(x: Path, p: Path) {
    AtOrUnder(x, p) || Under(p, x)
  }

  /** As filepath.Rel gives it: not the root, and without a leading "./". */
  predicate Relative(p: Path) {
    Clean(p) && p != "." && !Under(p, ".")
  }

  /** Everything that changes has the first component of p. */
  ghost predicate WithinTop(s: State, t: State, p: Path) {
    forall x :: !EqAt(s, t, x) ==> TopComponent(x) == TopComponent(p)
  }

  // ----------------------------------------------------------- copies of files and trees

  lemma InsideIsUnder(to: Path, base: string)
    ensures Under(to + "/" + base, to)
  {
    assert (to + "/" + base)[..|to|] == to;
  }

  lemma ParentsAround(d: Disk, to: Path, mode: Perms, x: Path)
    requires !Under(to, x)
    ensures At(MkdirParents(d, to, mode), x) == At(d, x)
  {
    AncestorsAreAbove(to, x);
  }

  lemma CopyFileAround(n: Node, base: string, d: Disk, to: Path, x: Path)
    requires CopyFile(n, base, d, to).Success? && !Around(x, to)
    ensures At(CopyFile(n, base, d, to).value, x) == At(d, x)
  {
    hide MkdirParents, ParentsFree, Under;
    InsideIsUnder(to, base);
    ParentsAround(d, to, DEFAULT_MODE, x);
  }

  lemma CopyTreeAround(src: Disk, from: Path, d: Disk, to: Path, x: Path)
    requires CopyTree(src, from, d, to).Success? && !Around(x, to)
    ensures At(CopyTree(src, from, d, to).value, x) == At(d, x)
  {
    hide MkdirParents, ParentsFree, Under, DirectoryInTheWay, Transferred, Images;
    ParentsAround(d, to, DEFAULT_MODE, x);
  }

  lemma MkdirAround(mode: Perms, d: Disk, to: Path, x: Path)
    requires Mkdir(mode, d, to).Success? && !Around(x, to)
    ensures At(Mkdir(mode, d, to).value, x) == At(d, x)
  {
    hide MkdirParents, ParentsFree, Under;
    ParentsAround(d, to, mode % 512, x);
  }

  lemma CopyAcrossKeeps(s: State, src: Side, p: Path, x: Path)
    requires CopyAcross(s, src, p).Success? && !Around(x, p)
    ensures EqAt(s, CopyAcross(s, src, p).value, x)
  {
    hide CopyFile, Base, Around;
    CopyFileAround(s.Of(src).disk[p], Base(p), s.Of(src.Opposite()).disk, p, x);
  }

  lemma CopyAsideKeeps(s: State, side: Side, p: Path, name: Path, x: Path)
    requires CopyAside(s, side, p, name).Success? && !Around(x, name)
    ensures EqAt(s, CopyAside(s, side, p, name).value, x)
  {
    hide CopyFile, Base, Around;
    CopyFileAround(s.Of(side).disk[p], Base(p), s.Of(side).disk, name, x);
  }

  lemma RecordedKeeps(cfg: Config, s: State, p: Path, writes: seq<(Side, Path)>, x: Path)
    requires x != p
    ensures EqAt(s, Recorded(cfg, s, p, writes).state, x)
  {
    hide EntryFor;
  }

  lemma EqAtChain(s: State, t: State, u: State, x: Path)
    requires EqAt(s, t, x) && EqAt(t, u, x)
    ensures EqAt(s, u, x)
  {
  }

  lemma ConflictsKeep(cfg: Config, s: State, p: Path, how: string, x: Path)
    requires x != p
    ensures EqAt(s, ConflictClosed(s, p, how), x)
    ensures EqAt(s, MarkBoth(s, p, Conflicted), x)
    ensures p in s.a.disk && p in s.b.disk ==> EqAt(s, ConflictRecorded(cfg, s, p), x)
  {
    hide DigestOf, DigestText;
  }

  // --------------------------------------------------------------- conflicts and contents

  lemma NewerKeeps(cfg: Config, s: State, src: Side, p: Path, x: Path)
    requires p in s.a.disk && p in s.b.disk && !Around(x, p)
    ensures EqAt(s, NewerWinsOver(cfg, s, src, p).state, x)
  {
    hide CopyAcross, Recorded, CloseConflict, EqAt, ConflictClosed;
    EqAtSelf(s, x);
    var winner := NewerOf(s, src, p);
    if CopyAcross(s, winner, p).Success? {
      var copied := CopyAcross(s, winner, p).value;
      var closed := ConflictClosed(copied, p, "newer-wins");
      CopyAcrossKeeps(s, winner, p, x);
      ConflictsKeep(cfg, copied, p, "newer-wins", x);
      RecordedKeeps(cfg, closed, p, [(winner.Opposite(), p)], x);
      EqAtChain(s, copied, closed, x);
      EqAtChain(s, closed, Recorded(cfg, closed, p, [(winner.Opposite(), p)]).state, x);
    }
  }

  lemma EqAtSelf(s: State, x: Path)
    ensures EqAt(s, s, x)
  {
  }

  lemma KeepBothKeeps(cfg: Config, s: State, src: Side, p: Path, now: Stamp, x: Path)
    requires !Around(x, p)
    requires p in s.Of(src.Opposite()).disk && Carries(s.Of(src.Opposite()).disk[p]) ==> !Around(x, ConflictName(p, src.Opposite(), now))
    ensures EqAt(s, KeepBoth(cfg, s, src, p, now).state, x)
  {
    hide CopyAcross, CopyAside, Recorded, CloseConflict, EqAt, ConflictClosed, ConflictName, Around;
    EqAtSelf(s, x);
    var dst := src.Opposite();
    var name := ConflictName(p, dst, now);
    AsideNeedsFile(s, dst, p, name);
    if CopyAside(s, dst, p, name).Success? {
      var saved := CopyAside(s, dst, p, name).value;
      CopyAsideKeeps(s, dst, p, name, x);
      if CopyAcross(saved, src, p).Success? {
        var copied := CopyAcross(saved, src, p).value;
        var closed := ConflictClosed(copied, p, "preserve:" + name);
        CopyAcrossKeeps(saved, src, p, x);
        NotAroundIsNot(x, p);
        ConflictsKeep(cfg, copied, p, "preserve:" + name, x);
        RecordedKeeps(cfg, closed, p, [(dst, name), (dst, p)], x);
        EqAtChain(s, saved, copied, x);
        EqAtChain(s, copied, closed, x);
        EqAtChain(s, closed, Recorded(cfg, closed, p, [(dst, name), (dst, p)]).state, x);
      }
    }
  }

  lemma NotAroundIsNot(x: Path, p: Path)
    requires !Around(x, p)
    ensures x != p
  {
  }

  lemma AsideNeedsFile(s: State, side: Side, p: Path, name: Path)
    ensures CopyAside(s, side, p, name).Success? ==> p in s.Of(side).disk && Carries(s.Of(side).disk[p])
  {
    hide Base;
  }

  /** The engine keeps the version of the other side under its conflict name. */
  predicate CopiesAside(cfg: Config, s: State, src: Side, p: Path) {
    && DetectConflict(cfg, s, src, p) == Success(true) && cfg.conflict == Preserve
    && p in s.Of(src.Opposite()).disk && Carries(s.Of(src.Opposite()).disk[p])
  }

  lemma ResolveKeeps(cfg: Config, s: State, src: Side, p: Path, now: Stamp, x: Path)
    requires !Around(x, p)
    requires cfg.conflict == Preserve && p in s.Of(src.Opposite()).disk && Carries(s.Of(src.Opposite()).disk[p]) ==>
      !Around(x, ConflictName(p, src.Opposite(), now))
    ensures EqAt(s, ResolveConflict(cfg, s, src, p, now).state, x)
  {
    hide KeepBoth, NewerWinsOver, DigestOf, EqAt, ConflictName, Around, MarkBoth, ConflictRecorded;
    EqAtSelf(s, x);
    if p in s.a.disk && p in s.b.disk {
      var noted := ConflictRecorded(cfg, s, p);
      NotAroundIsNot(x, p);
      ConflictsKeep(cfg, s, p, "", x);
      NotedDisks(cfg, s, p);
      match cfg.conflict {
        case Manual =>
          ConflictsKeep(cfg, noted, p, "", x);
          EqAtChain(s, noted, MarkBoth(noted, p, Conflicted), x);
        case NewerWins =>
          NewerKeeps(cfg, noted, src, p, x);
          EqAtChain(s, noted, NewerWinsOver(cfg, noted, src, p).state, x);
        case Preserve =>
          KeepBothKeeps(cfg, noted, src, p, now, x);
          EqAtChain(s, noted, KeepBoth(cfg, noted, src, p, now).state, x);
      }
    }
  }

  lemma NotedDisks(cfg: Config, s: State, p: Path)
    requires p in s.a.disk && p in s.b.disk
    ensures ConflictRecorded(cfg, s, p).a.disk == s.a.disk && ConflictRecorded(cfg, s, p).b.disk == s.b.disk
  {
    hide DigestOf;
  }

  lemma FileKeeps(cfg: Config, s: State, src: Side, p: Path, now: Stamp, x: Path)
    requires !Around(x, p) && (CopiesAside(cfg, s, src, p) ==> !Around(x, ConflictName(p, src.Opposite(), now)))
    ensures EqAt(s, PropagateFile(cfg, s, src, p, now).state, x)
  {
    hide CopyAcross, ResolveConflict, DetectConflict, Recorded, EqAt, ConflictName, Around;
    EqAtSelf(s, x);
    if DetectConflict(cfg, s, src, p) == Success(true) {
      ResolveKeeps(cfg, s, src, p, now, x);
    } else if CopyAcross(s, src, p).Success? {
      var copied := CopyAcross(s, src, p).value;
      CopyAcrossKeeps(s, src, p, x);
      NotAroundIsNot(x, p);
      RecordedKeeps(cfg, copied, p, [(src.Opposite(), p)], x);
      EqAtChain(s, copied, Recorded(cfg, copied, p, [(src.Opposite(), p)]).state, x);
    }
  }

  // ---------------------------------------------------------- directories and attributes

  lemma SubtreeKeeps(cfg: Config, s: State, p: Path, x: Path)
    requires !AtOrUnder(x, p)
    ensures EqAt(s, RecordSubtree(cfg, s, p), x)
  {
    hide EntryFor, Excluded, Under;
  }

  lemma WithDiskKeeps(s: State, side: Side, d: Disk, x: Path)
    requires At(d, x) == At(s.Of(side).disk, x)
    ensures EqAt(s, s.WithDisk(side, d), x)
  {
  }

  lemma DirKeeps(cfg: Config, s: State, src: Side, p: Path, x: Path)
    requires !Around(x, p)
    ensures EqAt(s, PropagateDir(cfg, s, src, p).state, x)
  {
    hide CopyTree, Mkdir, HasEntries, RecordSubtree, Recorded, RecordPair, EqAt, Under;
    EqAtSelf(s, x);
    var from, to := s.Of(src).disk, s.Of(src.Opposite()).disk;
    if p in from && from[p].Dir? {
      if !HasEntries(from, p) {
        var perms := StatOf(from[p]).perms;
        if Mkdir(perms, to, p).Success? {
          MkdirAround(perms, to, p, x);
          var made := s.WithDisk(src.Opposite(), Mkdir(perms, to, p).value);
          WithDiskKeeps(s, src.Opposite(), Mkdir(perms, to, p).value, x);
          RecordedKeeps(cfg, made, p, [(src.Opposite(), p)], x);
          EqAtChain(s, made, Recorded(cfg, made, p, [(src.Opposite(), p)]).state, x);
        }
      } else if CopyTree(from, p, to, p).Success? {
        CopyTreeAround(from, p, to, p, x);
        var made := s.WithDisk(src.Opposite(), CopyTree(from, p, to, p).value);
        WithDiskKeeps(s, src.Opposite(), CopyTree(from, p, to, p).value, x);
        if RecordPair(cfg, made, p).Success? {
          var recorded := RecordPair(cfg, made, p).value;
          PairKeeps(cfg, made, p, x);
          SubtreeKeeps(cfg, recorded, p, x);
          EqAtChain(s, made, recorded, x);
          EqAtChain(s, recorded, RecordSubtree(cfg, recorded, p), x);
        }
      }
    }
  }

  lemma PairKeeps(cfg: Config, s: State, p: Path, x: Path)
    requires RecordPair(cfg, s, p).Success? && x != p
    ensures EqAt(s, RecordPair(cfg, s, p).value, x)
  {
    hide EntryFor;
  }

  lemma AttrsKeep(cfg: Config, s: State, src: Side, p: Path, x: Path)
    requires x != p
    ensures EqAt(s, PropagateAttrs(cfg, s, src, p).state, x)
  {
    hide Recorded, EqAt, WithAttrs;
    EqAtSelf(s, x);
    if p in s.Of(src).disk {
      var d := s.Of(src.Opposite()).disk;
      var synced := s.WithDisk(src.Opposite(), SyncAttrs(s.Of(src).disk[p], d, p));
      var writes := if Attributed(s.Of(src).disk[p], d, p) then [(src.Opposite(), p)] else [];
      WithDiskKeeps(s, src.Opposite(), SyncAttrs(s.Of(src).disk[p], d, p), x);
      RecordedKeeps(cfg, synced, p, writes, x);
      EqAtChain(s, synced, Recorded(cfg, synced, p, writes).state, x);
    }
  }

  lemma FileRemovalKeeps(cfg: Config, env: Env, s: State, src: Side, p: Path, x: Path)
    requires x != p
    ensures EqAt(s, PropagateDelete(cfg, env, s, src, p, false).state, x)
  {
    hide HasEntries, RemoveDir;
  }

  // ------------------------------------------------------------------- one event

  /** Removals of directories are a case of their own. */
  predicate RemovesDir(ev: Event) {
    ev.kind == Delete && ev.isDir
  }

  /** The event makes the engine keep a version aside. */
  predicate SavesCopy(cfg: Config, s: State, ev: Event) {
    && (ev.kind == Create || ev.kind == Modify) && !ev.isDir && !AlreadySynced(cfg, s, ev)
    && !(ev.path in s.Of(ev.side).disk && s.Of(ev.side).disk[ev.path].Special?)
    && CopiesAside(cfg, s, ev.side, ev.path)
  }

  /** Any event but a move or the removal of a directory changes nothing but what is around its path and its saved copy. */
  lemma EventKeeps(cfg: Config, env: Env, s: State, ev: Event, x: Path)
    requires ev.kind != Move && !RemovesDir(ev) && !Around(x, ev.path)
    requires SavesCopy(cfg, s, ev) ==> !Around(x, ConflictName(ev.path, ev.side.Opposite(), env.clock(ev.path)))
    ensures EqAt(s, Process(cfg, env, s, ev).state, x)
  {
    hide AlreadySynced, PropagateFile, PropagateDir, PropagateDelete, PropagateAttrs, EqAt, Around, ConflictName,
      CopiesAside;
    EqAtSelf(s, x);
    NotAroundIsNot(x, ev.path);
    var src, p := ev.side, ev.path;
    if !AlreadySynced(cfg, s, ev) && !(ev.kind != Delete && p in s.Of(src).disk && s.Of(src).disk[p].Special?) {
      match ev.kind {
        case Delete => FileRemovalKeeps(cfg, env, s, src, p, x);
        case Attrib => AttrsKeep(cfg, s, src, p, x);
        case _ =>
          if ev.isDir {
            DirKeeps(cfg, s, src, p, x);
          } else {
            FileKeeps(cfg, s, src, p, env.clock(p), x);
          }
      }
    }
  }

  // --------------------------------------------------------------- first components

  lemma AroundSharesTop(x: Path, p: Path)
    requires Around(x, p) && p != "." && !Under(p, ".")
    ensures TopComponent(x) == TopComponent(p)
  {
    hide TopComponent, Partition, Under;
    if Under(x, p) { SubtreeSharesPartition(x, p, 1); }
    if Under(p, x) { SubtreeSharesPartition(p, x, 1); }
  }

  /** The saved copy of a path that is not at the top. */
  lemma AroundCopySharesTop(x: Path, p: Path, side: Side, at: Stamp)
    requires Relative(p) && '/' in p && Around(x, ConflictName(p, side, at))
    ensures TopComponent(x) == TopComponent(p)
  {
    hide TopComponent, Under, ConflictName, Clean;
    var name := ConflictName(p, side, at);
    if Under(name, x) {
      ConflictNameSitsBeside(p, side, at, x);
      AroundSharesTop(x, p);
    } else {
      SavedCopies.SavedCopyKeepsComponentExactly(p, side, at);
      NameIsRelative(p, side, at);
      AroundSharesTop(x, name);
    }
  }

  lemma NameIsRelative(p: Path, side: Side, at: Stamp)
    requires Relative(p)
    ensures ConflictName(p, side, at) != "." && !Under(ConflictName(p, side, at), ".")
  {
    hide ConflictName, Under, Clean;
    if Under(ConflictName(p, side, at), ".") { ConflictNameSitsBeside(p, side, at, "."); }
    LongName(p, side, at);
  }

  lemma LongName(p: Path, side: Side, at: Stamp)
    requires Clean(p)
    ensures |ConflictName(p, side, at)| >= 32
  {
    hide ConflictName, Clean;
    NameIsInsertion(p, side, at);
    TagIsTagLike(side, at);
    InsertedLength(p, Cut(p), Tag(side, at));
  }

  lemma SlashlessName(p: Path, side: Side, at: Stamp)
    requires Clean(p) && '/' !in p
    ensures '/' !in ConflictName(p, side, at) && !Around(ConflictName(p, side, at), p)
  {
    hide ConflictName, Clean;
    SavedDotAndSlash(p, side, at);
    LongerName(p, side, at);
    Slashless(p);
    Slashless(ConflictName(p, side, at));
  }

  lemma Slashless(p: Path)
    ensures Text.LastIndex(p, '/') == -1 <==> '/' !in p
    ensures '/' !in p ==> forall q :: !Under(p, q)
  {
  }

  // ------------------------------------------------------ a copy kept at the top of the tree

  lemma AsideAtTop(s: State, side: Side, p: Path, name: Path)
    requires p in s.Of(side).disk && Carries(s.Of(side).disk[p]) && '/' !in name && name !in s.Of(side).disk
    ensures CopyAside(s, side, p, name).Success?
    ensures At(CopyAside(s, side, p, name).value.Of(side).disk, name) == Some(s.Of(side).disk[p])
  {
    hide Base;
    assert Ancestors(name) == {};
  }

  lemma KeepBothAtTop(cfg: Config, s: State, src: Side, p: Path, now: Stamp)
    requires var dst := src.Opposite();
      && Clean(p) && '/' !in p && p in s.Of(dst).disk && Carries(s.Of(dst).disk[p])
      && ConflictName(p, dst, now) !in s.Of(dst).disk
    ensures ConflictName(p, src.Opposite(), now) in KeepBoth(cfg, s, src, p, now).state.Of(src.Opposite()).disk
  {
    hide CopyAcross, CopyAside, Recorded, CloseConflict, ConflictName, Around, Clean;
    var dst := src.Opposite();
    var name := ConflictName(p, dst, now);
    SlashlessName(p, dst, now);
    AsideAtTop(s, dst, p, name);
    var saved := CopyAside(s, dst, p, name).value;
    if CopyAcross(saved, src, p).Success? {
      var copied := CopyAcross(saved, src, p).value;
      CopyAcrossKeeps(saved, src, p, name);
      RecordedDisks(cfg, ConflictClosed(copied, p, "preserve:" + name), p, [(dst, name), (dst, p)]);
      assert At(copied.Of(dst).disk, name) == At(saved.Of(dst).disk, name);
    }
  }

  lemma RecordedDisks(cfg: Config, s: State, p: Path, writes: seq<(Side, Path)>)
    ensures var t := Recorded(cfg, s, p, writes).state; t.a.disk == s.a.disk && t.b.disk == s.b.disk
  {
    hide EntryFor;
  }

  lemma SavedAtTop(cfg: Config, env: Env, s: State, ev: Event)
    requires SavesCopy(cfg, s, ev) && Clean(ev.path) && '/' !in ev.path
    requires var dst := ev.side.Opposite(); ConflictName(ev.path, dst, env.clock(ev.path)) !in s.Of(dst).disk
    ensures var dst := ev.side.Opposite();
      ConflictName(ev.path, dst, env.clock(ev.path)) in Process(cfg, env, s, ev).state.Of(dst).disk
  {
    hide AlreadySynced, KeepBoth, ConflictRecorded, ConflictName, Clean;
    var src, p, now := ev.side, ev.path, env.clock(ev.path);
    ConflictMeansBoth(cfg, s, src, p);
    assert Process(cfg, env, s, ev) == ResolveConflict(cfg, s, src, p, now);
    NotedDisks(cfg, s, p);
    KeepBothAtTop(cfg, ConflictRecorded(cfg, s, p), src, p, now);
  }

  lemma ConflictMeansBoth(cfg: Config, s: State, src: Side, p: Path)
    requires DetectConflict(cfg, s, src, p) == Success(true)
    ensures p in s.a.disk && p in s.b.disk
  {
    hide ContentDiffers;
  }

  lemma NewEntryChanges(s: State, t: State, side: Side, x: Path)
    requires x !in s.Of(side).disk && x in t.Of(side).disk
    ensures !EqAt(s, t, x)
  {
  }

  lemma LocalUnlessSaved(cfg: Config, env: Env, s: State, ev: Event)
    requires ev.kind != Move && !RemovesDir(ev) && Relative(ev.path)
    requires var dst := ev.side.Opposite(); ConflictName(ev.path, dst, env.clock(ev.path)) !in s.Of(dst).disk
    ensures WithinTop(s, Process(cfg, env, s, ev).state, ev.path) <==> !(SavesCopy(cfg, s, ev) && '/' !in ev.path)
  {
    hide Process, SavesCopy, ConflictName, Around, EqAt, TopComponent, Clean, Under;
    var p, dst := ev.path, ev.side.Opposite();
    var t, name := Process(cfg, env, s, ev).state, ConflictName(p, dst, env.clock(p));
    if SavesCopy(cfg, s, ev) && '/' !in p {
      SavedAtTop(cfg, env, s, ev);
      NewEntryChanges(s, t, dst, name);
      SavedCopies.SavedCopyKeepsComponentExactly(p, dst, env.clock(p));
      assert !EqAt(s, t, name);
    } else {
      forall x | !EqAt(s, t, x) ensures TopComponent(x) == TopComponent(p) {
        if Around(x, p) {
          AroundSharesTop(x, p);
        } else {
          if !SavesCopy(cfg, s, ev) || !Around(x, name) { EventKeeps(cfg, env, s, ev, x); }
          AroundCopySharesTop(x, p, dst, env.clock(p));
        }
      }
    }
  }

  // ------------------------------------------------------------ removals of directories

  /** No row of another component is covered by p, that is, by letter case alone. */
  ghost predicate RowsAtHome(s: State, p: Path) {
    forall x :: (x in s.a.rows || x in s.b.rows) && CaseUnder(x, p) ==> TopComponent(x) == TopComponent(p)
  }

  /** What the removal of a directory needs to find. */
  ghost predicate Removable(env: Env, d: Disk, p: Path) {
    WalkFaithful(env) && Tree(d) && NamesFree(d, p, env.clock(p))
  }

  lemma {:induction false} SomethingUnknown(cfg: Config, env: Env, r: Replica, p: Path) returns (u: Path)
    requires WalkFaithful(env) && SetsAside(cfg, env, r, p)
    ensures AtOrUnder(u, p) && Unknown(cfg, r, u) && u in r.disk
  {
    hide Excluded, Unsynced, Visits;
    assert Faithful(env.walk(r.disk, p), r.disk, p);
    UnsyncedIsUnknown(cfg, env, r, p);
    u := Unsynced(cfg, r, Visits(env, r.disk, p))[0];
    assert u in Unsynced(cfg, r, Visits(env, r.disk, p));
  }

  /** How removeDir ends, whether or not it sets something aside. */
  lemma RemovalEnds(cfg: Config, env: Env, s: State, side: Side, p: Path)
    requires Clean(p) && Removable(env, s.Of(side).disk, p)
    ensures var o, to := RemoveDir(cfg, env, s, side, p), PreservedDirName(p, side, env.clock(p));
      && o.error.None?
      && o.state.a.rows == s.a.rows && o.state.b.rows == s.b.rows
      && o.state.Of(side.Opposite()).disk == s.Of(side.Opposite()).disk
      && (forall x :: x != p ==> Sync.Find(o.state.conflicts, x) == Sync.Find(s.conflicts, x))
      && (forall x :: !AtOrUnder(x, p) && (SetsAside(cfg, env, s.Of(side), p) ==> !AtOrUnder(x, to)) ==>
            At(o.state.Of(side).disk, x) == At(s.Of(side).disk, x))
  {
    hide PreservedDirName, Clean, Excluded, Tree, NamesFree, WalkFaithful, Unsynced, Visits, Unknown, Under;
    if SetsAside(cfg, env, s.Of(side), p) {
      var u := SomethingUnknown(cfg, env, s.Of(side), p);
      AboveIsThere(s.Of(side).disk, u, p);
      TreeHasParents(s.Of(side).disk, p);
      RemovalKeepsRows(cfg, env, s, side, p);
      RemoveDirPreserves(cfg, env, s, side, p);
    } else {
      RemovalKeepsRows(cfg, env, s, side, p);
    }
  }

  lemma AboveIsThere(d: Disk, u: Path, p: Path)
    requires Tree(d) && u in d && AtOrUnder(u, p)
    ensures p in d
  {
  }

  lemma RemovalKeeps(cfg: Config, env: Env, s: State, src: Side, p: Path, x: Path)
    requires var dst := src.Opposite();
      && Clean(p) && Removable(env, s.Of(dst).disk, p) && !AtOrUnder(x, p)
      && (CaseUnder(x, p) ==> x !in s.a.rows && x !in s.b.rows)
      && (SetsAside(cfg, env, s.Of(dst), p) ==> !AtOrUnder(x, PreservedDirName(p, dst, env.clock(p))))
    ensures EqAt(s, PropagateDelete(cfg, env, s, src, p, true).state, x)
  {
    hide PreservedDirName, Clean, Removable, RemoveDir, SetsAside, Under, CaseUnder;
    RemovalEnds(cfg, env, s, src.Opposite(), p);
    ForgottenRows(RemoveDir(cfg, env, s, src.Opposite(), p).state, p, x);
  }

  lemma CoveredIsForgotten(cfg: Config, env: Env, s: State, src: Side, p: Path, x: Path)
    requires Clean(p) && Removable(env, s.Of(src.Opposite()).disk, p)
    requires CaseUnder(x, p) && (x in s.a.rows || x in s.b.rows)
    ensures !EqAt(s, PropagateDelete(cfg, env, s, src, p, true).state, x)
  {
    hide PreservedDirName, Clean, Removable, RemoveDir, SetsAside, Under, CaseUnder;
    RemovalEnds(cfg, env, s, src.Opposite(), p);
    NotCoveredByItself(p);
    ForgottenRows(RemoveDir(cfg, env, s, src.Opposite(), p).state, p, x);
  }

  lemma NotCoveredByItself(p: Path)
    ensures !CaseUnder(p, p)
  {
  }

  /** What is set aside from a directory at the top of the tree lies in another component. */
  lemma SetAsideAtTop(cfg: Config, env: Env, s: State, src: Side, p: Path) returns (y: Path)
    requires var dst := src.Opposite();
      Clean(p) && Removable(env, s.Of(dst).disk, p) && SetsAside(cfg, env, s.Of(dst), p) && '/' !in p
    ensures !EqAt(s, PropagateDelete(cfg, env, s, src, p, true).state, y) && TopComponent(y) != TopComponent(p)
  {
    hide PreservedDirName, Clean, Excluded, Tree, WalkFaithful, Unsynced, Visits, Unknown, Under, RemoveDir, EqAt,
      TopComponent, Rebase, CaseUnder, NamesFree;
    var dst, at := src.Opposite(), env.clock(p);
    var to := PreservedDirName(p, dst, at);
    var u := SomethingUnknown(cfg, env, s.Of(dst), p);
    AboveIsThere(s.Of(dst).disk, u, p);
    TreeHasParents(s.Of(dst).disk, p);
    RemoveDirPreserves(cfg, env, s, dst, p);
    y := Rebase(u, p, to);
    RebaseBack(u, p, to);
    NamesFreeFacts(s.Of(dst).disk, p, at, dst);
    DeletionDisk(cfg, env, s, src, p);
    PreservedAt(cfg, s, RemoveDir(cfg, env, s, dst, p).state, dst, p, to, u);
    NewEntryChanges(s, PropagateDelete(cfg, env, s, src, p, true).state, dst, y);
    PreservedTop(p, dst, at, y);
  }

  lemma PreservedAt(cfg: Config, s: State, t: State, side: Side, p: Path, to: Path, u: Path)
    requires RemovedKeepingUnknown(cfg, s.Of(side), t.Of(side).disk, p, to) && cfg.dirDelete == PreserveUnknown
    requires AtOrUnder(u, p) && Unknown(cfg, s.Of(side), u) && u in s.Of(side).disk
    ensures Rebase(u, p, to) in t.Of(side).disk
  {
    hide Unknown, Tree, Rebase, Under;
  }

  lemma DeletionDisk(cfg: Config, env: Env, s: State, src: Side, p: Path)
    requires RemoveDir(cfg, env, s, src.Opposite(), p).error.None?
    ensures PropagateDelete(cfg, env, s, src, p, true).state.Of(src.Opposite()).disk
      == RemoveDir(cfg, env, s, src.Opposite(), p).state.Of(src.Opposite()).disk
  {
    hide RemoveDir;
  }

  lemma PreservedTop(p: Path, side: Side, at: Stamp, y: Path)
    requires Clean(p) && '/' !in p && AtOrUnder(y, PreservedDirName(p, side, at))
    ensures TopComponent(y) != TopComponent(p)
  {
    hide Clean, TopComponent, Under, Tag;
    var to := PreservedDirName(p, side, at);
    TagIsTagLike(side, at);
    AroundSharesTopLong(y, to);
    Slashless(p);
    Slashless(to);
    SavedCopies.SlashlessTop(p);
    SavedCopies.SlashlessTop(to);
    assert |to| == |p| + 32;
  }

  lemma AroundSharesTopLong(y: Path, to: Path)
    requires AtOrUnder(y, to) && |to| > 1
    ensures TopComponent(y) == TopComponent(to)
  {
    hide TopComponent, Partition, Under;
    if Under(y, to) { SubtreeSharesPartition(y, to, 1); }
  }

  lemma RemovalLocal(cfg: Config, env: Env, s: State, src: Side, p: Path)
    requires Relative(p) && Removable(env, s.Of(src.Opposite()).disk, p)
    ensures WithinTop(s, PropagateDelete(cfg, env, s, src, p, true).state, p) <==>
      RowsAtHome(s, p) && !(SetsAside(cfg, env, s.Of(src.Opposite()), p) && '/' !in p)
  {
    hide PropagateDelete, Removable, EqAt, TopComponent, Clean, Under, CaseUnder, SetsAside, PreservedDirName;
    var t, dst, at := PropagateDelete(cfg, env, s, src, p, true).state, src.Opposite(), env.clock(p);
    if !RowsAtHome(s, p) {
      var x :| (x in s.a.rows || x in s.b.rows) && CaseUnder(x, p) && TopComponent(x) != TopComponent(p);
      CoveredIsForgotten(cfg, env, s, src, p, x);
    } else if SetsAside(cfg, env, s.Of(dst), p) && '/' !in p {
      var y := SetAsideAtTop(cfg, env, s, src, p);
    } else {
      forall x | !EqAt(s, t, x) ensures TopComponent(x) == TopComponent(p) {
        if AtOrUnder(x, p) {
          AroundSharesTop(x, p);
        } else if CaseUnder(x, p) && (x in s.a.rows || x in s.b.rows) {
          assert TopComponent(x) == TopComponent(p);
        } else {
          if !SetsAside(cfg, env, s.Of(dst), p) || !AtOrUnder(x, PreservedDirName(p, dst, at)) {
            RemovalKeeps(cfg, env, s, src, p, x);
          }
          PreservedBelowTop(p, dst, at, x);
        }
      }
    }
  }

  /** A directory that is not at the top is preserved in its own component. */
  lemma PreservedBelowTop(p: Path, side: Side, at: Stamp, x: Path)
    requires Relative(p) && '/' in p && AtOrUnder(x, PreservedDirName(p, side, at))
    ensures TopComponent(x) == TopComponent(p)
  {
    hide Clean, TopComponent, Under, Tag;
    var to := PreservedDirName(p, side, at);
    TagIsTagLike(side, at);
    AroundSharesTopLong(x, to);
    SavedCopies.BelowItsDir(p);
    var dir := Names.Dir(p);
    AppendedBelow(p, Tag(side, at), dir);
    DirNotDot(p);
    SubtreeSharesPartition(p, dir, 1);
    SubtreeSharesPartition(to, dir, 1);
  }

  lemma AppendedBelow(p: Path, t: string, q: Path)
    requires Under(p, q)
    ensures Under(p + t, q)
  {
    assert (p + t)[..|q|] == p[..|q|];
  }

  lemma DirNotDot(p: Path)
    requires Relative(p) && Under(p, Names.Dir(p))
    ensures Names.Dir(p) != "."
  {
    hide Clean;
  }

  // ----------------------------------------------------------------------- exactly

  /** What takes an event out of its component. */
  ghost predicate Strays(cfg: Config, env: Env, s: State, ev: Event) {
    if RemovesDir(ev) then
      !AlreadySynced(cfg, s, ev)
      && (!RowsAtHome(s, ev.path) || (SetsAside(cfg, env, s.Of(ev.side.Opposite()), ev.path) && '/' !in ev.path))
    else SavesCopy(cfg, s, ev) && '/' !in ev.path
  }

  /**
   * Handling an event other than a move changes nodes, rows and conflict rows of its own first component
   * alone, exactly unless it strays: it keeps the other version of a file at the top of the tree aside;
   * or, not being recognised, it removes a directory that covers a row of another component by letter
   * case, or one at the top of the tree from which something is set aside.
   */
  lemma EventLocalExactly(cfg: Config, env: Env, s: State, ev: Event)
    requires ev.kind != Move && Relative(ev.path) && Removable(env, s.Of(ev.side.Opposite()).disk, ev.path)
    ensures WithinTop(s, Process(cfg, env, s, ev).state, ev.path) <==> !Strays(cfg, env, s, ev)
  {
    hide PropagateDelete, PropagateContent, PropagateAttrs, EqAt, TopComponent, Clean, Under, SetsAside, RowsAtHome,
      AlreadySynced, SavesCopy, Tree, WalkFaithful;
    var dst, p := ev.side.Opposite(), ev.path;
    if RemovesDir(ev) {
      if AlreadySynced(cfg, s, ev) {
        UnchangedWithin(s, p);
      } else {
        RemovalLocal(cfg, env, s, ev.side, p);
      }
    } else {
      NamesFreeFacts(s.Of(dst).disk, p, env.clock(p), dst);
      LocalUnlessSaved(cfg, env, s, ev);
    }
  }

  lemma UnchangedWithin(s: State, p: Path)
    ensures WithinTop(s, s, p)
  {
    hide TopComponent;
  }
}
