// The workers of the dispatcher run the engine itself: what one event reads and writes lies in the
// component of its path, once a saved copy counts as part of the component of its original.

module Slices {
  import opened Actions
  import opened Digests
  import opened Disks
  import opened Events
  import opened Exclude
  import opened Frames
  import opened Like
  import opened Locality
  import opened Names
  import opened Nodes
  import opened Options
  import opened Paths
  import opened Settings
  import opened Store
  import opened Sync

  // ------------------------------------------------ two states that agree on a set of paths

  ghost predicate DisksOn(region: iset<Path>, d: Disk, d': Disk) {
    forall x :: x in region ==> At(d, x) == At(d', x)
  }

  ghost predicate EqOn(region: iset<Path>, s: State, t: State) {
    forall x :: x in region ==> EqAt(s, t, x)
  }

  /** The same error, the same writes, and states that agree. */
  ghost predicate AlikeOn(region: iset<Path>, o: Outcome, o': Outcome) {
    o.error == o'.error && o.writes == o'.writes && EqOn(region, o.state, o'.state)
  }

  /** All an event at p can ask for or touch. */
  ghost predicate Holds(region: iset<Path>, p: Path, at: Stamp) {
    && (forall x :: Around(x, p) ==> x in region)
    && (forall x, side: Side :: Around(x, ConflictName(p, side, at)) ==> x in region)
    && (forall x, side: Side :: Around(x, PreservedDirName(p, side, at)) ==> x in region)
  }

  lemma EqDisks(region: iset<Path>, s: State, t: State)
    requires EqOn(region, s, t)
    ensures DisksOn(region, s.a.disk, t.a.disk) && DisksOn(region, s.b.disk, t.b.disk)
    ensures forall side: Side :: DisksOn(region, s.Of(side).disk, t.Of(side).disk)
  {
    forall x | x in region ensures At(s.a.disk, x) == At(t.a.disk, x) && At(s.b.disk, x) == At(t.b.disk, x) {
      assert EqAt(s, t, x);
    }
  }

  lemma WithDisksOn(region: iset<Path>, s: State, t: State, side: Side, d: Disk, d': Disk)
    requires EqOn(region, s, t) && DisksOn(region, d, d')
    ensures EqOn(region, s.WithDisk(side, d), t.WithDisk(side, d'))
  {
    forall x | x in region ensures EqAt(s.WithDisk(side, d), t.WithDisk(side, d'), x) {
      assert EqAt(s, t, x);
    }
  }

  lemma ParentsOn(region: iset<Path>, d: Disk, d': Disk, to: Path, mode: Perms)
    requires DisksOn(region, d, d') && forall x :: Under(to, x) ==> x in region
    ensures ParentsFree(d, to) <==> ParentsFree(d', to)
    ensures DisksOn(region, MkdirParents(d, to, mode), MkdirParents(d', to, mode))
  {
    forall q ensures q in Ancestors(to) <==> Under(to, q) {
      AncestorsAreAbove(to, q);
    }
    forall q | q in region ensures q in d <==> q in d' {
      assert At(d, q) == At(d', q);
    }
    forall q | q in region && q in d ensures d[q] == d'[q] {
      assert At(d, q) == At(d', q);
    }
  }

  lemma CopyFileOn(region: iset<Path>, n: Node, base: string, d: Disk, d': Disk, to: Path)
    requires DisksOn(region, d, d') && forall x :: Around(x, to) ==> x in region
    ensures match (CopyFile(n, base, d, to), CopyFile(n, base, d', to))
      case (Success(e), Success(e')) => DisksOn(region, e, e')
      case (Failure(f), Failure(f')) => f == f'
      case _ => false
  {
    hide ParentsFree, MkdirParents, Under;
    ParentsOn(region, d, d', to, DEFAULT_MODE);
    InsideIsUnder(to, base);
    assert Around(to, to) && Around(to + "/" + base, to);
    assert At(d, to) == At(d', to) && At(d, to + "/" + base) == At(d', to + "/" + base);
  }

  /** Both copies fail alike, or succeed and leave states that agree. */
  ghost predicate CopiesAlike(region: iset<Path>, c: Result<State, Error>, c': Result<State, Error>) {
    match (c, c')
    case (Success(t), Success(t')) => EqOn(region, t, t')
    case (Failure(f), Failure(f')) => f == f'
    case _ => false
  }

  lemma CopyAcrossOn(region: iset<Path>, s: State, t: State, src: Side, p: Path)
    requires EqOn(region, s, t) && forall x :: Around(x, p) ==> x in region
    ensures CopiesAlike(region, CopyAcross(s, src, p), CopyAcross(t, src, p))
  {
    hide CopyFile, Base, EqOn, DisksOn;
    EqDisks(region, s, t);
    SameNode(region, s, t, src, p);
    if p in s.Of(src).disk {
      var n, dst := s.Of(src).disk[p], src.Opposite();
      CopyFileOn(region, n, Base(p), s.Of(dst).disk, t.Of(dst).disk, p);
      if CopyFile(n, Base(p), s.Of(dst).disk, p).Success? {
        WithDisksOn(region, s, t, dst, CopyFile(n, Base(p), s.Of(dst).disk, p).value, CopyFile(n, Base(p),
          t.Of(dst).disk, p).value);
      }
    }
  }

  lemma SameNode(region: iset<Path>, s: State, t: State, side: Side, p: Path)
    requires EqOn(region, s, t) && forall x :: Around(x, p) ==> x in region
    ensures At(s.Of(side).disk, p) == At(t.Of(side).disk, p)
    ensures Sync.Find(s.Of(side).rows, p) == Sync.Find(t.Of(side).rows, p)
    ensures Sync.Find(s.conflicts, p) == Sync.Find(t.conflicts, p)
    ensures p in s.Of(side).disk <==> p in t.Of(side).disk
    ensures p in s.Of(side).disk ==> s.Of(side).disk[p] == t.Of(side).disk[p]
    ensures p in s.Of(side).rows <==> p in t.Of(side).rows
    ensures p in s.Of(side).rows ==> s.Of(side).rows[p] == t.Of(side).rows[p]
  {
    assert Around(p, p);
    assert EqAt(s, t, p);
  }

  lemma CopyAsideOn(region: iset<Path>, s: State, t: State, side: Side, p: Path, name: Path)
    requires EqOn(region, s, t) && (forall x :: Around(x, p) ==> x in region) && (forall x :: Around(x, name) ==> x in region)
    ensures CopiesAlike(region, CopyAside(s, side, p, name), CopyAside(t, side, p, name))
  {
    hide CopyFile, Base, EqOn, DisksOn;
    EqDisks(region, s, t);
    SameNode(region, s, t, side, p);
    if p in s.Of(side).disk {
      var d, d' := s.Of(side).disk, t.Of(side).disk;
      CopyFileOn(region, d[p], Base(p), d, d', name);
      if CopyFile(d[p], Base(p), d, name).Success? {
        WithDisksOn(region, s, t, side, CopyFile(d[p], Base(p), d, name).value, CopyFile(d[p], Base(p), d',
          name).value);
      }
    }
  }

  lemma RecordedOn(cfg: Config, region: iset<Path>, s: State, t: State, p: Path, writes: seq<(Side, Path)>)
    requires EqOn(region, s, t) && forall x :: Around(x, p) ==> x in region
    ensures AlikeOn(region, Recorded(cfg, s, p, writes), Recorded(cfg, t, p, writes))
  {
    hide EntryFor;
    SameNode(region, s, t, SideA, p);
    SameNode(region, s, t, SideB, p);
    var o, o' := Recorded(cfg, s, p, writes), Recorded(cfg, t, p, writes);
    forall x | x in region ensures EqAt(o.state, o'.state, x) {
      assert EqAt(s, t, x);
    }
  }

  lemma ClosedOn(region: iset<Path>, s: State, t: State, p: Path, how: string)
    requires EqOn(region, s, t) && forall x :: Around(x, p) ==> x in region
    ensures EqOn(region, ConflictClosed(s, p, how), ConflictClosed(t, p, how))
  {
    SameNode(region, s, t, SideA, p);
    forall x | x in region ensures EqAt(ConflictClosed(s, p, how), ConflictClosed(t, p, how), x) {
      assert EqAt(s, t, x);
    }
  }

  lemma NotedOn(cfg: Config, region: iset<Path>, s: State, t: State, p: Path)
    requires EqOn(region, s, t) && forall x :: Around(x, p) ==> x in region
    requires p in s.a.disk && p in s.b.disk && p in t.a.disk && p in t.b.disk
    ensures EqOn(region, ConflictRecorded(cfg, s, p), ConflictRecorded(cfg, t, p))
  {
    hide DigestOf, DigestText;
    SameNode(region, s, t, SideA, p);
    SameNode(region, s, t, SideB, p);
    forall x | x in region ensures EqAt(ConflictRecorded(cfg, s, p), ConflictRecorded(cfg, t, p), x) {
      assert EqAt(s, t, x);
    }
  }

  lemma MarkedOn(region: iset<Path>, s: State, t: State, p: Path)
    requires EqOn(region, s, t) && forall x :: Around(x, p) ==> x in region
    ensures EqOn(region, MarkBoth(s, p, Conflicted), MarkBoth(t, p, Conflicted))
  {
    SameNode(region, s, t, SideA, p);
    SameNode(region, s, t, SideB, p);
    forall x | x in region ensures EqAt(MarkBoth(s, p, Conflicted), MarkBoth(t, p, Conflicted), x) {
      assert EqAt(s, t, x);
    }
  }

  // ------------------------------------------------------------------- each operation

  lemma KeepBothOn(cfg: Config, region: iset<Path>, s: State, t: State, src: Side, p: Path, now: Stamp)
    requires EqOn(region, s, t) && Holds(region, p, now)
    ensures AlikeOn(region, KeepBoth(cfg, s, src, p, now), KeepBoth(cfg, t, src, p, now))
  {
    hide CopyAcross, CopyAside, ConflictName, Recorded, CloseConflict, Around, EqOn, ConflictClosed;
    var dst := src.Opposite();
    var name := ConflictName(p, dst, now);
    CopyAsideOn(region, s, t, dst, p, name);
    if CopyAside(s, dst, p, name).Success? {
      var s1, t1 := CopyAside(s, dst, p, name).value, CopyAside(t, dst, p, name).value;
      CopyAcrossOn(region, s1, t1, src, p);
      if CopyAcross(s1, src, p).Success? {
        var s2, t2 := CopyAcross(s1, src, p).value, CopyAcross(t1, src, p).value;
        ClosedOn(region, s2, t2, p, "preserve:" + name);
        RecordedOn(cfg, region, ConflictClosed(s2, p, "preserve:" + name), ConflictClosed(t2, p, "preserve:" + name), p,
          [(dst, name), (dst, p)]);
      }
    }
  }

  lemma NewerOn(cfg: Config, region: iset<Path>, s: State, t: State, src: Side, p: Path, now: Stamp)
    requires EqOn(region, s, t) && Holds(region, p, now)
    requires p in s.a.disk && p in s.b.disk && p in t.a.disk && p in t.b.disk
    ensures AlikeOn(region, NewerWinsOver(cfg, s, src, p), NewerWinsOver(cfg, t, src, p))
  {
    hide CopyAcross, ConflictName, Recorded, CloseConflict, Around, EqOn, ConflictClosed;
    SameNode(region, s, t, SideA, p);
    SameNode(region, s, t, SideB, p);
    var winner := NewerOf(s, src, p);
    CopyAcrossOn(region, s, t, winner, p);
    if CopyAcross(s, winner, p).Success? {
      var s2, t2 := CopyAcross(s, winner, p).value, CopyAcross(t, winner, p).value;
      ClosedOn(region, s2, t2, p, "newer-wins");
      RecordedOn(cfg, region, ConflictClosed(s2, p, "newer-wins"), ConflictClosed(t2, p, "newer-wins"), p,
        [(winner.Opposite(), p)]);
    }
  }

  lemma ResolveOn(cfg: Config, region: iset<Path>, s: State, t: State, src: Side, p: Path, now: Stamp)
    requires EqOn(region, s, t) && Holds(region, p, now)
    ensures AlikeOn(region, ResolveConflict(cfg, s, src, p, now), ResolveConflict(cfg, t, src, p, now))
  {
    hide KeepBoth, NewerWinsOver, ConflictName, Around, EqOn, MarkBoth, ConflictRecorded;
    SameNode(region, s, t, SideA, p);
    SameNode(region, s, t, SideB, p);
    if p in s.a.disk && p in s.b.disk {
      NotedOn(cfg, region, s, t, p);
      NotedDisks(cfg, s, p);
      NotedDisks(cfg, t, p);
      var s1, t1 := ConflictRecorded(cfg, s, p), ConflictRecorded(cfg, t, p);
      match cfg.conflict {
        case Manual => MarkedOn(region, s1, t1, p);
        case NewerWins => NewerOn(cfg, region, s1, t1, src, p, now);
        case Preserve => KeepBothOn(cfg, region, s1, t1, src, p, now);
      }
    }
  }

  lemma FileOn(cfg: Config, region: iset<Path>, s: State, t: State, src: Side, p: Path, now: Stamp)
    requires EqOn(region, s, t) && Holds(region, p, now)
    ensures AlikeOn(region, PropagateFile(cfg, s, src, p, now), PropagateFile(cfg, t, src, p, now))
  {
    hide ResolveConflict, CopyAcross, ConflictName, Around, EqOn, Recorded, ContentDiffers, Unchanged;
    SameNode(region, s, t, src, p);
    SameNode(region, s, t, src.Opposite(), p);
    assert DetectConflict(cfg, s, src, p) == DetectConflict(cfg, t, src, p);
    hide DetectConflict;
    ResolveOn(cfg, region, s, t, src, p, now);
    CopyAcrossOn(region, s, t, src, p);
    if CopyAcross(s, src, p).Success? {
      RecordedOn(cfg, region, CopyAcross(s, src, p).value, CopyAcross(t, src, p).value, p, [(src.Opposite(), p)]);
    }
  }

  lemma AttrsOn(cfg: Config, region: iset<Path>, s: State, t: State, src: Side, p: Path, now: Stamp)
    requires EqOn(region, s, t) && Holds(region, p, now)
    ensures AlikeOn(region, PropagateAttrs(cfg, s, src, p), PropagateAttrs(cfg, t, src, p))
  {
    hide ConflictName, Around, EqOn, Recorded, WithAttrs;
    SameNode(region, s, t, src, p);
    SameNode(region, s, t, src.Opposite(), p);
    EqDisks(region, s, t);
    if p in s.Of(src).disk {
      var n, dst := s.Of(src).disk[p], src.Opposite();
      var d, d' := s.Of(dst).disk, t.Of(dst).disk;
      WithDisksOn(region, s, t, dst, SyncAttrs(n, d, p), SyncAttrs(n, d', p));
      RecordedOn(cfg, region, s.WithDisk(dst, SyncAttrs(n, d, p)), t.WithDisk(dst, SyncAttrs(n, d', p)), p,
        if Attributed(n, d, p) then [(dst, p)] else []);
    }
  }

  lemma SameEntries(region: iset<Path>, d: Disk, d': Disk, p: Path)
    requires DisksOn(region, d, d') && forall x :: Around(x, p) ==> x in region
    ensures HasEntries(d, p) <==> HasEntries(d', p)
  {
    forall x | Under(x, p) ensures x in d <==> x in d' {
      assert Around(x, p);
      assert At(d, x) == At(d', x);
    }
  }

  lemma FileRemovalOn(cfg: Config, env: Env, region: iset<Path>, s: State, t: State, src: Side, p: Path, now: Stamp)
    requires EqOn(region, s, t) && Holds(region, p, now)
    ensures AlikeOn(region, PropagateDelete(cfg, env, s, src, p, false), PropagateDelete(cfg, env, t, src, p, false))
  {
    hide ConflictName, Around, RemoveDir, HasEntries;
    EqDisks(region, s, t);
    SameEntries(region, s.Of(src.Opposite()).disk, t.Of(src.Opposite()).disk, p);
    var o, o' := PropagateDelete(cfg, env, s, src, p, false), PropagateDelete(cfg, env, t, src, p, false);
    forall x | x in region ensures EqAt(o.state, o'.state, x) {
      assert EqAt(s, t, x);
    }
  }

  lemma MkdirOn(region: iset<Path>, mode: Perms, d: Disk, d': Disk, to: Path)
    requires DisksOn(region, d, d') && forall x :: Around(x, to) ==> x in region
    ensures match (Mkdir(mode, d, to), Mkdir(mode, d', to))
      case (Success(e), Success(e')) => DisksOn(region, e, e')
      case (Failure(f), Failure(f')) => f == f'
      case _ => false
  {
    hide ParentsFree, MkdirParents, Under;
    ParentsOn(region, d, d', to, mode % 512);
    assert Around(to, to);
    assert At(d, to) == At(d', to);
  }

  /** A tree copied onto its own path, entry by entry. */
  lemma TreeCopyIs(src: Disk, d: Disk, p: Path, x: Path)
    requires CopyTree(src, p, d, p).Success?
    ensures At(CopyTree(src, p, d, p).value, x) ==
      if AtOrUnder(x, p) && x in src then Some(Transferred(At(d, x), src[x]))
      else At(MkdirParents(d, p, DEFAULT_MODE), x)
  {
    hide MkdirParents, ParentsFree, DirectoryInTheWay, Transferred, Images;
    ImagesAreRebased(src, p, p, x);
    if AtOrUnder(x, p) { RebaseInPlace(x, p); }
  }

  lemma SameInTheWay(region: iset<Path>, src: Disk, src': Disk, d: Disk, d': Disk, p: Path)
    requires DisksOn(region, src, src') && DisksOn(region, d, d') && forall x :: Around(x, p) ==> x in region
    ensures DirectoryInTheWay(src, p, d, p) ==> DirectoryInTheWay(src', p, d', p)
  {
    if DirectoryInTheWay(src, p, d, p) {
      var x :| x in src && AtOrUnder(x, p) && !src[x].Dir? && Rebase(x, p, p) in d && d[Rebase(x, p, p)].Dir?;
      RebaseInPlace(x, p);
      assert Around(x, p);
      assert At(src, x) == At(src', x) && At(d, x) == At(d', x);
    }
  }

  lemma CopyTreeOn(region: iset<Path>, src: Disk, src': Disk, d: Disk, d': Disk, p: Path)
    requires DisksOn(region, src, src') && DisksOn(region, d, d') && forall x :: Around(x, p) ==> x in region
    ensures match (CopyTree(src, p, d, p), CopyTree(src', p, d', p))
      case (Success(e), Success(e')) => DisksOn(region, e, e')
      case (Failure(f), Failure(f')) => f == f'
      case _ => false
  {
    hide ParentsFree, MkdirParents, Under, DirectoryInTheWay, Transferred, Images;
    ParentsOn(region, d, d', p, DEFAULT_MODE);
    SameInTheWay(region, src, src', d, d', p);
    SameInTheWay(region, src', src, d', d, p);
    assert Around(p, p);
    assert At(d, p) == At(d', p) && At(src, p) == At(src', p);
    if CopyTree(src, p, d, p).Success? {
      var e, e' := CopyTree(src, p, d, p).value, CopyTree(src', p, d', p).value;
      hide CopyTree;
      forall x | x in region ensures At(e, x) == At(e', x) {
        TreeCopyIs(src, d, p, x);
        TreeCopyIs(src', d', p, x);
        assert At(src, x) == At(src', x) && At(d, x) == At(d', x);
      }
    }
  }

  lemma SubtreeOn(cfg: Config, region: iset<Path>, s: State, t: State, p: Path)
    requires EqOn(region, s, t) && forall x :: Around(x, p) ==> x in region
    ensures EqOn(region, RecordSubtree(cfg, s, p), RecordSubtree(cfg, t, p))
  {
    hide RecordedUnder;
    forall x | x in region ensures EqAt(RecordSubtree(cfg, s, p), RecordSubtree(cfg, t, p), x) {
      assert EqAt(s, t, x);
      RowsBelowOn(cfg, s.a, t.a, p, x);
      RowsBelowOn(cfg, s.b, t.b, p, x);
    }
  }

  lemma RowsBelowOn(cfg: Config, r: Replica, r': Replica, p: Path, x: Path)
    requires At(r.disk, x) == At(r'.disk, x) && Sync.Find(r.rows, x) == Sync.Find(r'.rows, x)
    ensures Sync.Find(RecordedUnder(cfg, r, p), x) == Sync.Find(RecordedUnder(cfg, r', p), x)
  {
    hide EntryFor, Excluded, Under;
  }

  lemma PairOn(cfg: Config, region: iset<Path>, s: State, t: State, p: Path)
    requires EqOn(region, s, t) && forall x :: Around(x, p) ==> x in region
    ensures CopiesAlike(region, RecordPair(cfg, s, p), RecordPair(cfg, t, p))
  {
    hide EntryFor;
    RecordedOn(cfg, region, s, t, p, []);
  }

  lemma DirOn(cfg: Config, region: iset<Path>, s: State, t: State, src: Side, p: Path, now: Stamp)
    requires EqOn(region, s, t) && Holds(region, p, now)
    ensures AlikeOn(region, PropagateDir(cfg, s, src, p), PropagateDir(cfg, t, src, p))
  {
    hide ConflictName, Around, EqOn, Recorded, RecordPair, RecordSubtree, CopyTree, Mkdir, HasEntries, DisksOn;
    EqDisks(region, s, t);
    SameNode(region, s, t, src, p);
    var dst := src.Opposite();
    var from, to, from', to' := s.Of(src).disk, s.Of(dst).disk, t.Of(src).disk, t.Of(dst).disk;
    SameEntries(region, from, from', p);
    if p in from && from[p].Dir? {
      if !HasEntries(from, p) {
        EmptyDirOn(cfg, region, s, t, src, p);
      } else {
        CopyTreeOn(region, from, from', to, to', p);
        if CopyTree(from, p, to, p).Success? {
          var d, d' := CopyTree(from, p, to, p).value, CopyTree(from', p, to', p).value;
          WithDisksOn(region, s, t, dst, d, d');
          PairOn(cfg, region, s.WithDisk(dst, d), t.WithDisk(dst, d'), p);
          if RecordPair(cfg, s.WithDisk(dst, d), p).Success? {
            SubtreeOn(cfg, region, RecordPair(cfg, s.WithDisk(dst, d), p).value, RecordPair(cfg, t.WithDisk(dst, d'),
              p).value, p);
          }
        }
      }
    }
  }

  lemma EmptyDirOn(cfg: Config, region: iset<Path>, s: State, t: State, src: Side, p: Path)
    requires EqOn(region, s, t) && forall x :: Around(x, p) ==> x in region
    requires var from, from' := s.Of(src).disk, t.Of(src).disk;
      p in from && from[p].Dir? && At(from', p) == At(from, p) && !HasEntries(from, p) && !HasEntries(from', p)
    ensures AlikeOn(region, PropagateDir(cfg, s, src, p), PropagateDir(cfg, t, src, p))
  {
    hide Around, EqOn, Recorded, RecordPair, RecordSubtree, CopyTree, Mkdir, HasEntries, DisksOn;
    EqDisks(region, s, t);
    var dst, perms := src.Opposite(), StatOf(s.Of(src).disk[p]).perms;
    var to, to' := s.Of(dst).disk, t.Of(dst).disk;
    MkdirOn(region, perms, to, to', p);
    if Mkdir(perms, to, p).Success? {
      var d, d' := Mkdir(perms, to, p).value, Mkdir(perms, to', p).value;
      WithDisksOn(region, s, t, dst, d, d');
      RecordedOn(cfg, region, s.WithDisk(dst, d), t.WithDisk(dst, d'), p, [(dst, p)]);
    }
  }

  // ---------------------------------------------------------- removing directories

  /** A walk depends on nothing but what it meets. */
  ghost predicate WalkLocal(env: Env) {
    forall d: Disk, d': Disk, p: Path :: SameBelow(d, d', p) ==> Visits(env, d, p) == Visits(env, d', p)
  }

  ghost predicate SameBelow(d: Disk, d': Disk, p: Path) {
    forall x :: AtOrUnder(x, p) ==> At(d, x) == At(d', x)
  }

  lemma {:induction false} UnsyncedOn(cfg: Config, r: Replica, r': Replica, visits: seq<Path>)
    requires forall x :: x in visits ==>
      At(r.disk, x) == At(r'.disk, x) && Sync.Find(r.rows, x) == Sync.Find(r'.rows, x)
    ensures Unsynced(cfg, r, visits) == Unsynced(cfg, r', visits)
  {
    hide Excluded, Unchanged, DigestOf;
    if visits != [] {
      var n := |visits| - 1;
      assert visits == visits[..n] + [visits[n]];
      UnsyncedOn(cfg, r, r', visits[..n]);
      assert At(r.disk, visits[n]) == At(r'.disk, visits[n]);
    }
  }

  lemma MoveFileOn(region: iset<Path>, d: Disk, d': Disk, from: Path, to: Path)
    requires DisksOn(region, d, d') && from in region && to in region && forall x :: Under(to, x) ==> x in region
    ensures match (MoveFile(d, from, to), MoveFile(d', from, to))
      case (Success(e), Success(e')) => DisksOn(region, e, e')
      case (Failure(f), Failure(f')) => f == f'
      case _ => false
  {
    hide ParentsFree, MkdirParents, Under;
    ParentsOn(region, d, d', to, DEFAULT_MODE);
    assert At(d, from) == At(d', from) && At(d, to) == At(d', to);
    if MoveFile(d, from, to).Success? {
      var e, e' := MoveFile(d, from, to).value, MoveFile(d', from, to).value;
      forall x | x in region ensures At(e, x) == At(e', x) {
        assert At(MkdirParents(d, to, DEFAULT_MODE), x) == At(MkdirParents(d', to, DEFAULT_MODE), x);
      }
    }
  }

  lemma RebasedAround(x: Path, p: Path, to: Path, y: Path)
    requires AtOrUnder(x, p) && AtOrUnder(Rebase(x, p, to), y)
    ensures Around(y, to)
  {
    hide Rebase;
    RebaseBack(x, p, to);
    AboveComparable(Rebase(x, p, to), to, y);
  }

  lemma {:induction false} MoveAsideOn(region: iset<Path>, d: Disk, d': Disk, p: Path, to: Path, paths: seq<Path>)
    requires DisksOn(region, d, d') && (forall x :: AtOrUnder(x, p) ==> x in region)
    requires (forall x :: Around(x, to) ==> x in region) && forall x :: x in paths ==> AtOrUnder(x, p)
    ensures MoveAside(d, p, to, paths).error == MoveAside(d', p, to, paths).error
    ensures DisksOn(region, MoveAside(d, p, to, paths).disk, MoveAside(d', p, to, paths).disk)
  {
    hide MoveFile, Rebase, DisksOn, AtOrUnder, Around;
    if paths != [] {
      var n := |paths| - 1;
      assert paths[n] in paths && forall x :: x in paths[..n] ==> x in paths;
      MoveAsideOn(region, d, d', p, to, paths[..n]);
      var target := Rebase(paths[n], p, to);
      forall y | AtOrUnder(target, y) ensures y in region {
        RebasedAround(paths[n], p, to, y);
      }
      TargetInRegion(region, target);
      MoveFileOn(region, MoveAside(d, p, to, paths[..n]).disk, MoveAside(d', p, to, paths[..n]).disk, paths[n], target);
    }
  }

  lemma TargetInRegion(region: iset<Path>, target: Path)
    requires forall y :: AtOrUnder(target, y) ==> y in region
    ensures target in region && forall y :: Under(target, y) ==> y in region
  {
    assert AtOrUnder(target, target);
    forall y | Under(target, y) ensures y in region {
      assert AtOrUnder(target, y);
    }
  }

  lemma RemoveAllOn(region: iset<Path>, d: Disk, d': Disk, p: Path)
    requires DisksOn(region, d, d')
    ensures DisksOn(region, RemoveAll(d, p), RemoveAll(d', p))
  {
    forall x | x in region ensures At(RemoveAll(d, p), x) == At(RemoveAll(d', p), x) {
      assert At(d, x) == At(d', x);
    }
  }

  lemma EmptiedOn(cfg: Config, env: Env, region: iset<Path>, s: State, t: State, side: Side, p: Path, to: Path)
    requires EqOn(region, s, t) && WalkLocal(env)
    requires (forall x :: Around(x, p) ==> x in region) && forall x :: Around(x, to) ==> x in region
    ensures SetsAside(cfg, env, s.Of(side), p) == SetsAside(cfg, env, t.Of(side), p)
    ensures var e, e' := EmptiedDisk(cfg, env, s.Of(side), p, to), EmptiedDisk(cfg, env, t.Of(side), p, to);
      e.error == e'.error && DisksOn(region, e.disk, e'.disk)
  {
    hide EqOn, DisksOn, Unsynced, Visits, MoveAside, RemoveAll, Around;
    EqDisks(region, s, t);
    VisitsOn(env, region, s, t, side, p);
    var r, r', visits := s.Of(side), t.Of(side), Visits(env, s.Of(side).disk, p);
    VisitedOn(region, s, t, side, p, visits);
    UnsyncedOn(cfg, r, r', visits);
    BelowInRegion(region, p);
    var unsynced := Unsynced(cfg, r, visits);
    assert forall x :: x in unsynced ==> AtOrUnder(x, p);
    MoveAsideOn(region, r.disk, r'.disk, p, to, unsynced);
    RemoveAllOn(region, r.disk, r'.disk, p);
    RemoveAllOn(region, MoveAside(r.disk, p, to, unsynced).disk, MoveAside(r'.disk, p, to, unsynced).disk, p);
  }

  lemma BelowInRegion(region: iset<Path>, p: Path)
    requires forall x :: Around(x, p) ==> x in region
    ensures forall x :: AtOrUnder(x, p) ==> x in region
  {
    forall x | AtOrUnder(x, p) ensures x in region {
      assert Around(x, p);
    }
  }

  lemma VisitsOn(env: Env, region: iset<Path>, s: State, t: State, side: Side, p: Path)
    requires EqOn(region, s, t) && WalkLocal(env) && forall x :: Around(x, p) ==> x in region
    ensures Visits(env, s.Of(side).disk, p) == Visits(env, t.Of(side).disk, p)
  {
    hide Visits, EqOn;
    EqDisks(region, s, t);
    BelowInRegion(region, p);
    assert SameBelow(s.Of(side).disk, t.Of(side).disk, p);
  }

  lemma VisitedOn(region: iset<Path>, s: State, t: State, side: Side, p: Path, visits: seq<Path>)
    requires EqOn(region, s, t) && (forall x :: Around(x, p) ==> x in region)
    requires forall x :: x in visits ==> AtOrUnder(x, p)
    ensures var r, r' := s.Of(side), t.Of(side);
      forall x :: x in visits ==> At(r.disk, x) == At(r'.disk, x) && Sync.Find(r.rows, x) == Sync.Find(r'.rows, x)
  {
    BelowInRegion(region, p);
    var r, r' := s.Of(side), t.Of(side);
    forall x | x in visits ensures At(r.disk, x) == At(r'.disk, x) && Sync.Find(r.rows, x) == Sync.Find(r'.rows, x) {
      assert EqAt(s, t, x);
    }
  }

  lemma RemoveDirOn(cfg: Config, env: Env, region: iset<Path>, s: State, t: State, side: Side, p: Path)
    requires EqOn(region, s, t) && WalkLocal(env) && Holds(region, p, env.clock(p))
    ensures AlikeOn(region, RemoveDir(cfg, env, s, side, p), RemoveDir(cfg, env, t, side, p))
  {
    hide EqOn, DisksOn, EmptiedDisk, SetsAside, PreservedDirName, ConflictName, Around, OpenConflict, CloseConflict;
    var to := PreservedDirName(p, side, env.clock(p));
    EmptiedOn(cfg, env, region, s, t, side, p, to);
    var e, e' := EmptiedDisk(cfg, env, s.Of(side), p, to), EmptiedDisk(cfg, env, t.Of(side), p, to);
    WithDisksOn(region, s, t, side, e.disk, e'.disk);
    NoteOn(region, s.WithDisk(side, e.disk), t.WithDisk(side, e'.disk), p, "preserve-unknown:" + to);
  }

  lemma NoteOn(region: iset<Path>, s: State, t: State, p: Path, how: string)
    requires EqOn(region, s, t)
    ensures EqOn(region, s.(conflicts := CloseConflict(OpenConflict(s.conflicts, p, ZERO, ZERO), p, how)),
              t.(conflicts := CloseConflict(OpenConflict(t.conflicts, p, ZERO, ZERO), p, how)))
  {
    hide DigestText;
    var s', t' := s.(conflicts := CloseConflict(OpenConflict(s.conflicts, p, ZERO, ZERO), p, how)),
      t.(conflicts := CloseConflict(OpenConflict(t.conflicts, p, ZERO, ZERO), p, how));
    forall x | x in region ensures EqAt(s', t', x) {
      assert EqAt(s, t, x);
    }
  }

  lemma ForgetOn(region: iset<Path>, s: State, t: State, p: Path)
    requires EqOn(region, s, t)
    ensures EqOn(region, ForgetSubtree(s, p), ForgetSubtree(t, p))
  {
    hide Covered;
    forall x | x in region ensures EqAt(ForgetSubtree(s, p), ForgetSubtree(t, p), x) {
      assert EqAt(s, t, x);
    }
  }

  lemma DirRemovalOn(cfg: Config, env: Env, region: iset<Path>, s: State, t: State, src: Side, p: Path)
    requires EqOn(region, s, t) && WalkLocal(env) && Holds(region, p, env.clock(p))
    ensures AlikeOn(region, PropagateDelete(cfg, env, s, src, p, true), PropagateDelete(cfg, env, t, src, p, true))
  {
    hide EqOn, RemoveDir, ForgetSubtree, Holds;
    RemoveDirOn(cfg, env, region, s, t, src.Opposite(), p);
    ForgetOn(region, RemoveDir(cfg, env, s, src.Opposite(), p).state, RemoveDir(cfg, env, t, src.Opposite(), p).state, p);
  }

  // ------------------------------------------------- what a removal leaves as it is

  lemma MoveFileAround(d: Disk, from: Path, to: Path, x: Path)
    requires MoveFile(d, from, to).Success? && x != from && x != to && !Under(to, x)
    ensures At(MoveFile(d, from, to).value, x) == At(d, x)
  {
    hide MkdirParents, ParentsFree, Under;
    ParentsAround(d, to, DEFAULT_MODE, x);
  }

  lemma {:induction false} MoveAsideAround(d: Disk, p: Path, to: Path, paths: seq<Path>, x: Path)
    requires (forall y :: y in paths ==> AtOrUnder(y, p)) && !AtOrUnder(x, p) && !Around(x, to)
    ensures At(MoveAside(d, p, to, paths).disk, x) == At(d, x)
  {
    hide MoveFile, Rebase, AtOrUnder, Around;
    if paths != [] {
      var n := |paths| - 1;
      assert paths[n] in paths && forall y :: y in paths[..n] ==> y in paths;
      MoveAsideAround(d, p, to, paths[..n], x);
      var before, target := MoveAside(d, p, to, paths[..n]), Rebase(paths[n], p, to);
      if AtOrUnder(target, x) { RebasedAround(paths[n], p, to, x); }
      NotAbove(target, x);
      if MoveFile(before.disk, paths[n], target).Success? { MoveFileAround(before.disk, paths[n], target, x); }
    }
  }

  lemma NotAbove(target: Path, x: Path)
    requires !AtOrUnder(target, x)
    ensures x != target && !Under(target, x)
  {
  }

  lemma EmptiedAround(cfg: Config, env: Env, r: Replica, p: Path, to: Path, x: Path)
    requires !AtOrUnder(x, p) && !Around(x, to)
    ensures At(EmptiedDisk(cfg, env, r, p, to).disk, x) == At(r.disk, x)
  {
    hide Unsynced, Visits, MoveAside, Around, AtOrUnder;
    var unsynced := Unsynced(cfg, r, Visits(env, r.disk, p));
    assert forall y :: y in unsynced ==> AtOrUnder(y, p);
    MoveAsideAround(r.disk, p, to, unsynced, x);
  }

  /** Whether or not it succeeds, the removal of a directory changes nothing away from it but rows it covers by case. */
  lemma DirRemovalKeeps(cfg: Config, env: Env, s: State, src: Side, p: Path, x: Path)
    requires !Around(x, p) && !Around(x, PreservedDirName(p, src.Opposite(), env.clock(p)))
    requires CaseUnder(x, p) ==> x !in s.a.rows && x !in s.b.rows
    ensures EqAt(s, PropagateDelete(cfg, env, s, src, p, true).state, x)
  {
    hide RemoveDir, PreservedDirName, CaseUnder, Under;
    RemoveDirKeepsAt(cfg, env, s, src.Opposite(), p, x);
    var t := RemoveDir(cfg, env, s, src.Opposite(), p).state;
    ForgottenRows(t, p, x);
  }

  lemma RemoveDirKeepsAt(cfg: Config, env: Env, s: State, side: Side, p: Path, x: Path)
    requires !Around(x, p) && !Around(x, PreservedDirName(p, side, env.clock(p)))
    ensures EqAt(s, RemoveDir(cfg, env, s, side, p).state, x)
  {
    hide PreservedDirName, EmptiedDisk, SetsAside, Under, DigestText;
    EmptiedAround(cfg, env, s.Of(side), p, PreservedDirName(p, side, env.clock(p)), x);
  }

  // ---------------------------------------------------------------------- one event

  /** What an event other than a move does depends on nothing else. */
  lemma EventOn(cfg: Config, env: Env, region: iset<Path>, s: State, t: State, ev: Event)
    requires ev.kind != Move && EqOn(region, s, t) && WalkLocal(env) && Holds(region, ev.path, env.clock(ev.path))
    ensures AlikeOn(region, Process(cfg, env, s, ev), Process(cfg, env, t, ev))
  {
    hide Unchanged, Compare, PropagateFile, PropagateDir, PropagateDelete, PropagateAttrs, EqOn, Around, ConflictName,
      PreservedDirName, WalkLocal;
    var src, p, now := ev.side, ev.path, env.clock(ev.path);
    SameNode(region, s, t, src, p);
    SameNode(region, s, t, src.Opposite(), p);
    assert AlreadySynced(cfg, s, ev) == AlreadySynced(cfg, t, ev);
    hide AlreadySynced;
    match ev.kind {
      case Delete =>
        if ev.isDir {
          DirRemovalOn(cfg, env, region, s, t, src, p);
        } else {
          FileRemovalOn(cfg, env, region, s, t, src, p, now);
        }
      case Attrib => AttrsOn(cfg, region, s, t, src, p, now);
      case _ =>
        if ev.isDir { DirOn(cfg, region, s, t, src, p, now); } else { FileOn(cfg, region, s, t, src, p, now); }
    }
  }
}
