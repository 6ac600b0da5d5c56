// The engine as the repository writes it: one object whose methods change the two trees, the table and
// the conflict list step by step (internal/engine/engine.go, conflict.go, delete.go, resync.go, resolve.go).
// Each method is tied to the function that says what it comes to.

module Engine {
  import opened Actions
  import opened Digests
  import opened Disks
  import opened Events
  import opened Exclude
  import opened Frames
  import Like
  import opened Names
  import opened Nodes
  import opened Locality
  import opened Options
  import opened Passes
  import opened Paths
  import opened Promises
  import opened Policies
  import opened Reconciled
  import opened Removal
  import opened Scanning
  import opened Settings
  import opened Store
  import opened Sync
  import opened Versions
  import Res = Resolution

  class Engine {
    const cfg: Config
    const env: Env
    var a: Replica
    var b: Replica
    var conflicts: Conflicts
    ghost var written: seq<(Side, Path)>

    constructor (cfg: Config, env: Env, a: Replica, b: Replica, conflicts: Conflicts)
      ensures this.cfg == cfg && this.env == env
      ensures Now() == State(a, b, conflicts) && written == []
    {
      this.cfg, this.env := cfg, env;
      this.a, this.b, this.conflicts := a, b, conflicts;
      written := [];
    }

    function Now(): State
      reads this
    {
      State(a, b, conflicts)
    }

    /** The method ended as the function says. */
    ghost predicate Ended(o: Outcome, before: seq<(Side, Path)>, err: Option<Error>)
      reads this
    {
      Now() == o.state && err == o.error && written == before + o.writes
    }

    function DiskOf(side: Side): Disk
      reads this
    {
      Now().Of(side).disk
    }

    method SetDisk(side: Side, d: Disk)
      modifies this`a, this`b
      ensures Now() == old(Now()).WithDisk(side, d)
    {
      if side == SideA { a := a.(disk := d); } else { b := b.(disk := d); }
    }

    method PutRow(side: Side, p: Path, e: Entry)
      modifies this`a, this`b
      ensures Now() == old(Now()).With(side, old(Now()).Of(side).(rows := old(Now()).Of(side).rows[p := e]))
    {
      if side == SideA { a := a.(rows := a.rows[p := e]); } else { b := b.(rows := b.rows[p := e]); }
    }

    // ---------------------------------------------------------------- recording

    method RecordPair(p: Path, ghost writes: seq<(Side, Path)>) returns (err: Option<Error>)
      modifies this
      ensures Ended(Recorded(cfg, old(Now()), p, writes), old(written), err)
      ensures PairKnown(cfg, old(Now()), Now(), err, p)
    {
      hide EntryFor, PairKnown;
      RecordingPromise(cfg, Now(), p, writes);
      written := written + writes;
      if p !in a.disk || p !in b.disk { return Some(NotFound); }
      PutRow(SideA, p, EntryFor(cfg, a.disk[p]));
      PutRow(SideB, p, EntryFor(cfg, b.disk[p]));
      return None;
    }

    lemma VisitsMeetAll(d: Disk, p: Path)
      requires WalkFaithful(env)
      ensures forall x :: x in Visits(env, d, p) <==> x in d && AtOrUnder(x, p)
    {
      assert Faithful(env.walk(d, p), d, p);
    }

    ghost function RowsSoFar(r: Replica, met: seq<Path>): Rows {
      r.rows + map x | x in r.disk && x in met && !Excluded(cfg.exclude, x) :: EntryFor(cfg, r.disk[x])
    }

    lemma RowsMet(r: Replica, met: seq<Path>, x: Path)
      requires x in r.disk
      ensures RowsSoFar(r, met + [x]) ==
        if Excluded(cfg.exclude, x) then RowsSoFar(r, met) else RowsSoFar(r, met)[x := EntryFor(cfg, r.disk[x])]
    {
      hide EntryFor, Excluded;
    }

    lemma AllRowsMet(r: Replica, p: Path)
      requires WalkFaithful(env)
      ensures RowsSoFar(r, Visits(env, r.disk, p)) == RecordedUnder(cfg, r, p)
    {
      hide EntryFor, Excluded, WalkFaithful, Visits, AtOrUnder;
      VisitsMeetAll(r.disk, p);
    }

    lemma NoRowsMet(r: Replica)
      ensures RowsSoFar(r, []) == r.rows
    {
      hide EntryFor, Excluded;
    }

    /** The rows of one side for all that is visible at and below p, met one by one. */
    method RowsBelow(r: Replica, p: Path) returns (rows: Rows)
      requires WalkFaithful(env)
      ensures rows == RecordedUnder(cfg, r, p)
    {
      hide EntryFor, Excluded, WalkFaithful, Visits, AtOrUnder, RowsSoFar, RecordedUnder;
      VisitsMeetAll(r.disk, p);
      var visits := Visits(env, r.disk, p);
      rows := r.rows;
      NoRowsMet(r);
      for i := 0 to |visits|
        invariant rows == RowsSoFar(r, visits[..i])
      {
        assert visits[..i + 1] == visits[..i] + [visits[i]];
        assert visits[i] in visits;
        RowsMet(r, visits[..i], visits[i]);
        if !Excluded(cfg.exclude, visits[i]) {
          rows := rows[visits[i] := EntryFor(cfg, r.disk[visits[i]])];
        }
      }
      assert visits[..|visits|] == visits;
      AllRowsMet(r, p);
    }

    method RecordSubtree(p: Path)
      requires WalkFaithful(env)
      modifies this`a, this`b
      ensures Now() == Sync.RecordSubtree(cfg, old(Now()), p)
    {
      hide RecordedUnder, WalkFaithful;
      var rowsA := RowsBelow(a, p);
      a := a.(rows := rowsA);
      var rowsB := RowsBelow(b, p);
      b := b.(rows := rowsB);
    }

    method ForgetSubtree(p: Path)
      modifies this`a, this`b
      ensures Now() == Sync.ForgetSubtree(old(Now()), p)
    {
      a := a.(rows := DeleteSubtree(a.rows, p));
      b := b.(rows := DeleteSubtree(b.rows, p));
    }

    // ---------------------------------------------------------------- conflicts

    method DetectConflict(src: Side, p: Path) returns (conflict: Result<bool, Error>)
      ensures conflict == Sync.DetectConflict(cfg, Now(), src, p)
      ensures ConflictMeans(cfg, Now(), src, p, conflict)
    {
      hide ContentDiffers, Unchanged, ConflictMeans;
      ConflictPromise(cfg, Now(), src, p);
      var dst := src.Opposite();
      var to := Now().Of(dst);
      if p !in to.disk { return Success(false); }
      if to.disk[p].Dir? { return Success(false); }
      if p !in to.rows {
        if p !in DiskOf(src) { return Failure(NotFound); }
        return Success(ContentDiffers(cfg, DiskOf(src)[p], to.disk[p]));
      }
      if Unchanged(StatOf(to.disk[p]), to.rows[p].AsStat()) { return Success(false); }
      if p !in DiskOf(src) { return Failure(NotFound); }
      return Success(ContentDiffers(cfg, DiskOf(src)[p], to.disk[p]));
    }

    method CopyAcross(src: Side, p: Path) returns (err: Option<Error>)
      modifies this`a, this`b
      ensures match Sync.CopyAcross(old(Now()), src, p)
        case Success(t) => Now() == t && err == None
        case Failure(e) => Now() == old(Now()) && err == Some(e)
    {
      hide CopyFile, Base;
      if p !in DiskOf(src) { return Some(NotFound); }
      var copied := CopyFile(DiskOf(src)[p], Base(p), DiskOf(src.Opposite()), p);
      if copied.Failure? { return Some(copied.error); }
      SetDisk(src.Opposite(), copied.value);
      return None;
    }

    method CopyAside(side: Side, p: Path, name: Path) returns (err: Option<Error>)
      modifies this`a, this`b
      ensures match Sync.CopyAside(old(Now()), side, p, name)
        case Success(t) => Now() == t && err == None
        case Failure(e) => Now() == old(Now()) && err == Some(e)
    {
      hide CopyFile, Base;
      if p !in DiskOf(side) { return Some(NotFound); }
      var copied := CopyFile(DiskOf(side)[p], Base(p), DiskOf(side), name);
      if copied.Failure? { return Some(copied.error); }
      SetDisk(side, copied.value);
      return None;
    }

    method KeepBoth(src: Side, p: Path, now: Stamp) returns (err: Option<Error>)
      modifies this
      ensures Ended(Sync.KeepBoth(cfg, old(Now()), src, p, now), old(written), err)
    {
      hide ConflictName, Sync.CopyAcross, Sync.CopyAside, Recorded, CloseConflict;
      var dst := src.Opposite();
      var name := ConflictName(p, dst, now);
      err := CopyAside(dst, p, name);
      if err.Some? { return; }
      err := CopyAcross(src, p);
      if err.Some? {
        written := written + [(dst, name)];
        return;
      }
      conflicts := CloseConflict(conflicts, p, "preserve:" + name);
      err := RecordPair(p, [(dst, name), (dst, p)]);
    }

    method NewerWinsOver(src: Side, p: Path) returns (err: Option<Error>)
      requires p in a.disk && p in b.disk
      modifies this
      ensures Ended(Sync.NewerWinsOver(cfg, old(Now()), src, p), old(written), err)
    {
      hide Sync.CopyAcross, Recorded, CloseConflict;
      var winner := src;
      if StatOf(DiskOf(src.Opposite())[p]).mtime > StatOf(DiskOf(src)[p]).mtime {
        winner := src.Opposite();
      }
      err := CopyAcross(winner, p);
      if err.Some? { return; }
      conflicts := CloseConflict(conflicts, p, "newer-wins");
      err := RecordPair(p, [(winner.Opposite(), p)]);
    }

    method ResolveConflict(src: Side, p: Path, now: Stamp) returns (err: Option<Error>)
      modifies this
      ensures Ended(Sync.ResolveConflict(cfg, old(Now()), src, p, now), old(written), err)
      ensures ConflictResolved(cfg, old(Now()), Now(), err, src, p, now)
    {
      hide Sync.KeepBoth, Sync.NewerWinsOver, DigestOf, OpenConflict, ConflictResolved;
      ResolvingPromise(cfg, Now(), src, p, now);
      if p !in a.disk || p !in b.disk { return Some(NotFound); }
      conflicts := OpenConflict(conflicts, p, DigestOf(cfg, a.disk[p]), DigestOf(cfg, b.disk[p]));
      match cfg.conflict {
        case Manual =>
          a := a.(rows := MarkStatus(a.rows, p, Conflicted));
          b := b.(rows := MarkStatus(b.rows, p, Conflicted));
          err := None;
        case NewerWins => err := NewerWinsOver(src, p);
        case Preserve => err := KeepBoth(src, p, now);
      }
    }

    // -------------------------------------------------------------- propagation

    method PropagateFile(src: Side, p: Path, now: Stamp) returns (err: Option<Error>)
      modifies this
      ensures Ended(Sync.PropagateFile(cfg, old(Now()), src, p, now), old(written), err)
      ensures FileArrived(cfg, old(Now()), Now(), err, src, p, now)
    {
      hide Sync.DetectConflict, Sync.ResolveConflict, Sync.CopyAcross, Recorded, FileArrived, ConflictMeans,
        ConflictResolved,
        PairKnown;
      FilePromise(cfg, Now(), src, p, now);
      var conflict := DetectConflict(src, p);
      if conflict.Failure? { return Some(conflict.error); }
      if conflict.value {
        err := ResolveConflict(src, p, now);
        return;
      }
      err := CopyAcross(src, p);
      if err.Some? { return; }
      err := RecordPair(p, [(src.Opposite(), p)]);
    }

    method PropagateDir(src: Side, p: Path) returns (err: Option<Error>)
      requires WalkFaithful(env)
      modifies this
      ensures Ended(Sync.PropagateDir(cfg, old(Now()), src, p), old(written), err)
      ensures DirArrived(cfg, old(Now()), Now(), err, src, p)
    {
      hide CopyTree, Mkdir, HasEntries, EntryFor, Sync.RecordSubtree, WalkFaithful, DirArrived, PairKnown;
      DirPromise(cfg, Now(), src, p, env.clock(p));
      var from, to := DiskOf(src), DiskOf(src.Opposite());
      if p !in from { return Some(NotFound); }
      if !from[p].Dir? { return Some(NotDirectory); }
      if !HasEntries(from, p) {
        var made := Mkdir(StatOf(from[p]).perms, to, p);
        if made.Failure? { return Some(made.error); }
        SetDisk(src.Opposite(), made.value);
        err := RecordPair(p, [(src.Opposite(), p)]);
      } else {
        var copied := CopyTree(from, p, to, p);
        if copied.Failure? { return Some(copied.error); }
        SetDisk(src.Opposite(), copied.value);
        err := RecordPair(p, []);
        if err.Some? { return; }
        RecordSubtree(p);
        written := written + [(src.Opposite(), p)];
      }
    }

    method PropagateContent(src: Side, p: Path, isDir: bool, now: Stamp) returns (err: Option<Error>)
      requires WalkFaithful(env)
      modifies this
      ensures Ended(Sync.PropagateContent(cfg, old(Now()), src, p, isDir, now), old(written), err)
    {
      hide Sync.PropagateDir, Sync.PropagateFile, WalkFaithful;
      if isDir {
        err := PropagateDir(src, p);
      } else {
        err := PropagateFile(src, p, now);
      }
    }

    method PropagateAttrs(src: Side, p: Path) returns (err: Option<Error>)
      modifies this
      ensures Ended(Sync.PropagateAttrs(cfg, old(Now()), src, p), old(written), err)
      ensures AttrsAgree(old(Now()), Now(), err, src, p)
    {
      hide SyncAttrs, Recorded, AttrsAgree, PairKnown;
      AttrsPromise(cfg, Now(), src, p, env.clock(p));
      if p !in DiskOf(src) { return Some(NotFound); }
      var d := DiskOf(src.Opposite());
      SetDisk(src.Opposite(), SyncAttrs(DiskOf(src)[p], d, p));
      err := RecordPair(p, if Attributed(DiskOf(src)[p], d, p) then [(src.Opposite(), p)] else []);
    }

    // -------------------------------------------------------- removing directories

    /** The rows selected for a subtree hold what the table says of every path at or below it. */
    lemma KnownBelow(rows: Rows, p: Path)
      ensures forall x :: AtOrUnder(x, p) ==> Sync.Find(Subtree(rows, p), x) == Sync.Find(rows, x)
    {
      hide Like.CaseUnder;
      forall x | Under(x, p) ensures Covered(x, p) {
        Like.UnderIsCaseUnder(x, p);
      }
    }

    /** The walk below p, picking out what the other side never saw. */
    method UnsyncedUnder(side: Side, p: Path) returns (out: seq<Path>)
      ensures out == Unsynced(cfg, Now().Of(side), Visits(env, Now().Of(side).disk, p))
    {
      hide Excluded, Unchanged, DigestOf, Visits, Subtree;
      var r := Now().Of(side);
      var known := Subtree(r.rows, p);
      KnownBelow(r.rows, p);
      var visits := Visits(env, r.disk, p);
      out := [];
      for i := 0 to |visits|
        invariant out == Unsynced(cfg, r, visits[..i])
      {
        assert visits[..i + 1][..i] == visits[..i];
        var x := visits[i];
        if x in r.disk && !Excluded(cfg.exclude, x) && !r.disk[x].Dir? {
          assert x in visits;
          if x !in known {
            out := out + [x];
          } else if !Unchanged(StatOf(r.disk[x]), known[x].AsStat()) {
            if Compare(DigestOf(cfg, r.disk[x]), known[x].digest) != Same {
              out := out + [x];
            }
          }
        }
      }
      assert visits[..|visits|] == visits;
    }

    /** Moves the listed paths one after the other, stopping at the first that cannot be moved. */
    method MoveAll(d: Disk, p: Path, to: Path, paths: seq<Path>) returns (moved: Moved)
      requires forall x :: x in paths ==> AtOrUnder(x, p)
      ensures moved == MoveAside(d, p, to, paths)
    {
      hide MoveFile, Rebase;
      moved := Moved(d, None);
      for i := 0 to |paths|
        invariant forall x :: x in paths[..i] ==> AtOrUnder(x, p)
        invariant moved == MoveAside(d, p, to, paths[..i])
      {
        assert paths[..i + 1][..i] == paths[..i];
        PrefixStep(paths, i);
        assert paths[i] in paths;
        if moved.error.None? {
          var step := MoveFile(moved.disk, paths[i], Rebase(paths[i], p, to));
          moved := if step.Failure? then Moved(moved.disk, Some(step.error)) else Moved(step.value, None);
        }
      }
      assert paths[..|paths|] == paths;
    }

    method RemoveDir(side: Side, p: Path) returns (err: Option<Error>)
      modifies this
      ensures Ended(Sync.RemoveDir(cfg, env, old(Now()), side, p), old(written), err)
      ensures Clean(p) && Removable(env, old(DiskOf(side)), p) ==>
        && err.None?
        && RemovedKeepingUnknown(cfg, old(Now()).Of(side), DiskOf(side), p, PreservedDirName(p, side, env.clock(p)))
    {
      hide PreservedDirName, MoveAside, RemoveAll, Unsynced, Visits, OpenConflict, CloseConflict, Clean, Removable,
        RemovedKeepingUnknown;
      RemovalOutcome(Now(), side, p);
      if cfg.dirDelete == Force {
        SetDisk(side, RemoveAll(DiskOf(side), p));
        return None;
      }
      var unsynced := UnsyncedUnder(side, p);
      if unsynced == [] {
        SetDisk(side, RemoveAll(DiskOf(side), p));
        return None;
      }
      UnsyncedBelow(Now().Of(side), p);
      var to := PreservedDirName(p, side, env.clock(p));
      var moved := MoveAll(DiskOf(side), p, to, unsynced);
      SetDisk(side, moved.disk);
      if moved.error.Some? { return moved.error; }
      conflicts := OpenConflict(conflicts, p, ZERO, ZERO);
      conflicts := CloseConflict(conflicts, p, "preserve-unknown:" + to);
      SetDisk(side, RemoveAll(DiskOf(side), p));
      return None;
    }

    lemma RemovalOutcome(s: State, side: Side, p: Path)
      ensures Clean(p) && Removable(env, s.Of(side).disk, p) ==>
        && Sync.RemoveDir(cfg, env, s, side, p).error.None?
        && RemovedKeepingUnknown(cfg, s.Of(side), Sync.RemoveDir(cfg, env, s, side, p).state.Of(side).disk, p,
             PreservedDirName(p, side, env.clock(p)))
    {
      hide PreservedDirName, Clean, Removable, RemovedKeepingUnknown, Sync.RemoveDir;
      if Clean(p) && Removable(env, s.Of(side).disk, p) {
        RemovalEnds(cfg, env, s, side, p);
        RemovalDisk(cfg, env, s, side, p);
      }
    }

    lemma UnsyncedBelow(r: Replica, p: Path)
      ensures forall x :: x in Unsynced(cfg, r, Visits(env, r.disk, p)) ==> AtOrUnder(x, p)
    {
      hide Unknown;
    }

    lemma RemovalWritesNothing(s: State, side: Side, p: Path)
      ensures Sync.RemoveDir(cfg, env, s, side, p).writes == []
    {
      hide PreservedDirName, EmptiedDisk, SetsAside;
    }

    method PropagateDelete(src: Side, p: Path, isDir: bool) returns (err: Option<Error>)
      modifies this
      ensures Ended(Sync.PropagateDelete(cfg, env, old(Now()), src, p, isDir), old(written), err)
      ensures RemovalFollowed(cfg, env, old(Now()), Now(), err, src, p, isDir)
    {
      hide Sync.RemoveDir, Sync.ForgetSubtree, Remove, RemovalFollowed, Clean, Removable, RemovedKeepingUnknown;
      RemovalPromise(cfg, env, Now(), src, p, isDir);
      var dst := src.Opposite();
      if isDir {
        RemovalWritesNothing(Now(), dst, p);
        err := RemoveDir(dst, p);
        if err.Some? { return; }
        ForgetSubtree(p);
        return;
      }
      var removed := Remove(DiskOf(dst), p, false);
      if removed.Failure? { return Some(removed.error); }
      SetDisk(dst, removed.value);
      a := a.(rows := a.rows - {p});
      b := b.(rows := b.rows - {p});
      return None;
    }

    /** One event of any kind but a move. */
    method Process(ev: Event) returns (err: Option<Error>)
      requires ev.kind != Move && WalkFaithful(env)
      modifies this
      ensures Ended(Sync.Process(cfg, env, old(Now()), ev), old(written), err)
      ensures EventSettles(cfg, env, old(Now()), Now(), err, ev, written != old(written))
    {
      hide Sync.PropagateContent, Sync.PropagateDelete, Sync.PropagateAttrs, AlreadySynced, WalkFaithful, EventSettles,
        RemovalFollowed, AttrsAgree;
      EventPromise(cfg, env, Now(), ev);
      if AlreadySynced(cfg, Now(), ev) { return None; }
      if ev.kind != Delete && ev.path in DiskOf(ev.side) && DiskOf(ev.side)[ev.path].Special? { return None; }
      if ev.kind == Delete {
        err := PropagateDelete(ev.side, ev.path, ev.isDir);
      } else if ev.kind == Attrib {
        err := PropagateAttrs(ev.side, ev.path);
      } else {
        err := PropagateContent(ev.side, ev.path, ev.isDir, env.clock(ev.path));
      }
    }

    // --------------------------------------------------------------- reconciliation

    method DeleteOneSided(present: Side, p: Path, isDir: bool) returns (err: Option<Error>)
      modifies this
      ensures Ended(Sync.DeleteOneSided(cfg, env, old(Now()), present, p, isDir), old(written), err)
      ensures OneSideCleared(cfg, env, old(Now()), Now(), err, present, p, isDir)
    {
      hide Sync.RemoveDir, Sync.ForgetSubtree, Remove, OneSideCleared, Clean, Removable, RemovedKeepingUnknown;
      ClearingPromise(cfg, env, Now(), present, p, isDir);
      if isDir {
        RemovalWritesNothing(Now(), present, p);
        err := RemoveDir(present, p);
        if err.Some? { return; }
        ForgetSubtree(p);
        return;
      }
      var removed := Remove(DiskOf(present), p, false);
      if removed.Failure? { return Some(removed.error); }
      SetDisk(present, removed.value);
      ForgetSubtree(p);
      return None;
    }

    method ReconcileOneSided(present: Side, p: Path, isDir: bool) returns (err: Option<Error>)
      requires WalkFaithful(env)
      modifies this
      ensures Ended(Sync.ReconcileOneSided(cfg, env, old(Now()), present, p, isDir), old(written), err)
      ensures OneSidedDecided(cfg, env, old(Now()), Now(), err, present, p, isDir)
    {
      hide Sync.DeleteOneSided, Sync.PropagateContent, WalkFaithful, OneSidedDecided, OneSideCleared;
      OneSidedPromise(cfg, env, Now(), present, p, isDir);
      var deletedRemotely := p in Now().Of(present.Opposite()).rows;
      var remove: bool;
      match cfg.first {
        case AWins => remove := present == SideB;
        case BWins => remove := present == SideA;
        case Union => remove := deletedRemotely;
      }
      if remove {
        err := DeleteOneSided(present, p, isDir);
      } else {
        err := PropagateContent(present, p, isDir, env.clock(p));
      }
    }

    method ReconcileAttrs(p: Path, stA: Stat, stB: Stat) returns (err: Option<Error>)
      modifies this
      ensures Ended(Sync.ReconcileAttrs(cfg, old(Now()), p, stA, stB), old(written), err)
      ensures AttrsReconciled(old(Now()), Now(), err, p)
    {
      hide Sync.PropagateAttrs, AttrsDiverged, AttrsReconciled, AttrsAgree;
      AttrsReconciledPromise(cfg, env, Now(), p, stA, stB);
      var origin := NewerSide(stA, stB);
      if p in a.rows && p in b.rows {
        var changedA := AttrsDiverged(stA, a.rows[p].AsStat());
        var changedB := AttrsDiverged(stB, b.rows[p].AsStat());
        if changedA && !changedB {
          origin := SideA;
        } else if changedB && !changedA {
          origin := SideB;
        }
      }
      err := PropagateAttrs(origin, p);
    }

    method ReconcileFiles(p: Path, stA: Stat, stB: Stat, v: Verdict) returns (err: Option<Error>)
      modifies this
      ensures Ended(Sync.ReconcileFiles(cfg, env, old(Now()), p, stA, stB, v), old(written), err)
      ensures TruePair(cfg, old(Now()), p, stA, stB, v, env.clock(p)) ==>
        PairReconciled(cfg, old(Now()), Now(), err, p, env.clock(p))
    {
      hide Sync.PropagateFile, Sync.ResolveConflict, Sync.ReconcileAttrs, OriginOf, AttrsDiverged, Recorded, TruePair,
        PairReconciled, AttrsReconciled, PairKnown, FileArrived, ConflictResolved;
      PairOutcome(Now(), p, stA, stB, v);
      if !v.differs {
        if AttrsDiverged(stA, stB) {
          err := ReconcileAttrs(p, stA, stB);
        } else {
          err := RecordPair(p, []);
        }
        return;
      }
      match cfg.first {
        case AWins => err := PropagateFile(SideA, p, env.clock(p));
        case BWins => err := PropagateFile(SideB, p, env.clock(p));
        case Union =>
          var origin := OriginOf(Now(), p, v, stA, stB);
          if origin.Some? {
            err := PropagateFile(origin.value, p, env.clock(p));
          } else {
            err := ResolveConflict(NewerSide(stA, stB), p, env.clock(p));
          }
      }
    }

    lemma PairOutcome(s: State, p: Path, stA: Stat, stB: Stat, v: Verdict)
      ensures TruePair(cfg, s, p, stA, stB, v, env.clock(p)) ==>
        var o := Sync.ReconcileFiles(cfg, env, s, p, stA, stB, v); PairReconciled(cfg, s, o.state, o.error, p, env.clock(p))
    {
      hide TruePair, PairReconciled, Sync.ReconcileFiles;
      if TruePair(cfg, s, p, stA, stB, v, env.clock(p)) { PairPromise(cfg, env, s, p, stA, stB, v); }
    }

    /** A path both inventories know; the answer is whether what lies below it is settled as well. */
    method ReconcileBothSides(p: Path, stA: Stat, stB: Stat, v: Option<Verdict>) returns (clash: bool,
          err: Option<Error>)
      requires stA.kind != SpecialKind && stB.kind != SpecialKind
      modifies this
      ensures var acted := Act(cfg, env, old(Now()), p, Some(stA), Some(stB), v);
        Ended(acted.outcome, old(written), err) && clash == acted.typeClash
      ensures Ready(cfg, env, old(Now()), p) && TrueAt(cfg, old(Now()), p, Some(stA), Some(stB), v) ==>
        err.None? && TurnDone(cfg, env, old(Now()), Now(), p) && clash == ClashAt(old(Now()), p)
    {
      hide Sync.ReconcileFiles, Sync.ReconcileAttrs, AttrsDiverged, OpenConflict, ContentDiffers, DigestOf, Ready,
        TrueAt,
        TurnDone, ClashAt, AttrsReconciled, TruePair;
      BothOutcome(Now(), p, stA, stB, v);
      clash, err := false, None;
      if stA.isDir && stB.isDir {
        if AttrsDiverged(stA, stB) { err := ReconcileAttrs(p, stA, stB); }
        return;
      }
      if stA.isDir != stB.isDir {
        conflicts := OpenConflict(conflicts, p, ZERO, ZERO);
        clash := true;
        return;
      }
      if v.Some? {
        err := ReconcileFiles(p, stA, stB, v.value);
      } else if p in a.disk && p in b.disk {
        var m, n := a.disk[p], b.disk[p];
        err := ReconcileFiles(p, stA, stB, Verdict(DigestOf(cfg, m), DigestOf(cfg, n), ContentDiffers(cfg, m, n)));
      }
    }

    lemma BothOutcome(s: State, p: Path, stA: Stat, stB: Stat, v: Option<Verdict>)
      ensures Ready(cfg, env, s, p) && TrueAt(cfg, s, p, Some(stA), Some(stB), v) ==>
        var acted := Act(cfg, env, s, p, Some(stA), Some(stB), v);
        acted.outcome.error.None? && TurnDone(cfg, env, s, acted.outcome.state, p) && acted.typeClash == ClashAt(s, p)
    {
      hide Ready, TrueAt, TurnDone, ClashAt, Act;
      if Ready(cfg, env, s, p) && TrueAt(cfg, s, p, Some(stA), Some(stB), v) {
        ActPromise(cfg, env, s, p, Some(stA), Some(stB), v);
      }
    }

    /** The verdicts for all paths but those still waiting for a worker. */
    ghost function Compared(jobs: set<Path>): map<Path, Verdict>
      reads this
    {
      map p | p in CompareAll(cfg, Now()) && p !in jobs :: CompareAll(cfg, Now())[p]
    }

    lemma NoneCompared()
      ensures Compared(Sync.Scan(cfg, a.disk).Keys * Sync.Scan(cfg, b.disk).Keys) == map[]
      ensures Compared({}) == CompareAll(cfg, Now())
    {
      hide Judge, Excluded;
    }

    lemma OneCompared(jobs: set<Path>, p: Path)
      requires p in jobs && jobs <= Sync.Scan(cfg, a.disk).Keys * Sync.Scan(cfg, b.disk).Keys
      ensures var stA, stB := StatOf(a.disk[p]), StatOf(b.disk[p]);
        Compared(jobs - {p}) ==
          if !stA.isDir && !stB.isDir && stA.kind != SpecialKind && stB.kind != SpecialKind
          then Compared(jobs)[p := Judge(cfg, a.disk[p], b.disk[p])] else Compared(jobs)
    {
      hide Judge, Excluded;
    }

    /** Reads and hashes every path that is a file or link on both sides; nothing is written. */
    method CompareInParallel(invA: Inventory, invB: Inventory) returns (out: map<Path, Verdict>)
      requires invA == Sync.Scan(cfg, a.disk) && invB == Sync.Scan(cfg, b.disk)
      ensures out == CompareAll(cfg, Now())
    {
      hide Judge, Excluded, CompareAll, Compared;
      var jobs := invA.Keys * invB.Keys;
      out := map[];
      NoneCompared();
      while jobs != {}
        invariant jobs <= invA.Keys * invB.Keys
        invariant out == Compared(jobs)
        decreases |jobs|
      {
        var p :| p in jobs;
        OneCompared(jobs, p);
        jobs := jobs - {p};
        if !invA[p].isDir && !invB[p].isDir && invA[p].kind != SpecialKind && invB[p].kind != SpecialKind {
          out := out[p := Judge(cfg, a.disk[p], b.disk[p])];
        }
      }
    }

    method UnderAny(p: Path, prefixes: seq<Path>) returns (r: bool)
      ensures r == Paths.UnderAny(p, prefixes)
    {
      for i := 0 to |prefixes|
        invariant forall j :: 0 <= j < i ==> !Under(p, prefixes[j])
      {
        if Under(p, prefixes[i]) { return true; }
      }
      return false;
    }

    /** One turn of the apply loop. */
    method Turn(p: Path, survey: Survey, handled: seq<Path>) returns (grown: seq<Path>)
      requires WalkFaithful(env)
      modifies this
      ensures Pass(Now(), grown) == StaleStep(cfg, env, survey, Pass(old(Now()), handled), p)
      ensures TurnFollowed(cfg, env, old(Now()), Now(), handled, grown, survey, p)
    {
      hide Sync.ReconcileOneSided, Paths.UnderAny, WalkFaithful, Sync.ReconcileFiles, Sync.ReconcileAttrs,
        CompareNow, TurnFollowed, OneSidedDecided, Ready, TrueAt, TurnDone;
      TurnPromise(cfg, env, survey, Pass(Now(), handled), p);
      grown := handled;
      var settled := UnderAny(p, handled);
      if settled { return; }
      var stA, stB, v := Sync.Find(survey.invA, p), Sync.Find(survey.invB, p), Sync.Find(survey.verdicts, p);
      if (stA.Some? && stA.value.kind == SpecialKind) || (stB.Some? && stB.value.kind == SpecialKind) { return; }
      if stA.Some? && stB.None? {
        var _ := ReconcileOneSided(SideA, p, stA.value.isDir);
        if stA.value.isDir { grown := handled + [p]; }
      } else if stB.Some? && stA.None? {
        var _ := ReconcileOneSided(SideB, p, stB.value.isDir);
        if stB.value.isDir { grown := handled + [p]; }
      } else if stA.Some? && stB.Some? {
        var clash, _ := ReconcileBothSides(p, stA.value, stB.value, v);
        if clash { grown := handled + [p]; }
      }
    }

    /** The whole pass: scan both sides, compare, then act path by path, whatever fails on the way. */
    method Reconcile(visitsA: seq<Path>, visitsB: seq<Path>) returns (order: seq<Path>)
      requires WalkFaithful(env) && Covers(visitsA, a.disk) && Covers(visitsB, b.disk)
      modifies this
      ensures UnionOrder(cfg, old(Now()), order)
      ensures Now() == Sync.Reconcile(cfg, env, old(Now()), order)
      ensures Start(cfg, env, old(Now())) && cfg.hashMax <= 0 && cfg.conflict != Manual ==>
        forall x :: Visible(cfg, x) && Clear(old(Now()), x) ==> AgreeAt(Now(), x)
      ensures Start(cfg, env, old(Now())) && cfg.first == Union && cfg.conflict == Preserve ==>
        forall p, side :: Visible(cfg, p) && FilesAt(old(Now()), p) && p in old(Now()).a.disk && p in old(Now()).b.disk ==>
          VersionSafe(old(Now()), Now(), side, p, env.clock(p))
    {
      hide Start, Visible, Clear, AgreeAt, VersionSafe, FilesAt;
      hide Excluded, WalkFaithful, StaleStep, Sync.Scan, CompareAll, Sorted, Covers, UnionOrder;
      var invA := Walk(cfg, a.disk, visitsA);
      var invB := Walk(cfg, b.disk, visitsB);
      var comparisons := CompareInParallel(invA, invB);
      var survey := Survey(invA, invB, comparisons);
      order := Scanning.Union(invA, invB);
      UnionFitsPass(cfg, Now(), order);
      var handled: seq<Path> := [];
      for i := 0 to |order|
        invariant Pass(Now(), handled) == StalePass(cfg, env, Take(cfg, old(Now())), old(Now()), order[..i])
      {
        assert order[..i + 1][..i] == order[..i];
        handled := Turn(order[i], survey, handled);
      }
      assert order[..|order|] == order;
      Achieved(old(Now()), order);
    }

    /** What the pass as a whole has then achieved. */
    lemma Achieved(s: State, order: seq<Path>)
      requires UnionOrder(cfg, s, order)
      ensures var t := Sync.Reconcile(cfg, env, s, order);
        && (Start(cfg, env, s) && cfg.hashMax <= 0 && cfg.conflict != Manual ==>
              forall x :: Visible(cfg, x) && Clear(s, x) ==> AgreeAt(t, x))
        && (Start(cfg, env, s) && cfg.first == Union && cfg.conflict == Preserve ==>
              forall p, side :: Visible(cfg, p) && FilesAt(s, p) && p in s.a.disk && p in s.b.disk ==>
                VersionSafe(s, t, side, p, env.clock(p)))
    {
      hide Start, Visible, Clear, AgreeAt, VersionSafe, FilesAt, UnionOrder, Sync.Reconcile;
      if Start(cfg, env, s) && cfg.hashMax <= 0 && cfg.conflict != Manual {
        forall x | Visible(cfg, x) && Clear(s, x) ensures AgreeAt(Sync.Reconcile(cfg, env, s, order), x) {
          Converges(cfg, env, s, order, x);
        }
      }
      if Start(cfg, env, s) && cfg.first == Union && cfg.conflict == Preserve {
        forall p, side: Side | Visible(cfg, p) && FilesAt(s, p) && p in s.a.disk && p in s.b.disk
          ensures VersionSafe(s, Sync.Reconcile(cfg, env, s, order), side, p, env.clock(p))
        {
          NothingIsLost(cfg, env, s, order, p);
          EitherSide(side);
        }
      }
    }

    lemma EitherSide(side: Side)
      ensures side == SideA || side == SideB
    {
    }

    // ------------------------------------------------------------ assisted resolution

    method PreserveLoser(p: Path, loser: Side, want: Res.Choice, now: Stamp) returns (name: Path, err: Option<Error>)
      requires p in DiskOf(loser)
      modifies this`a, this`b
      ensures name == Res.PreservedName(p, loser, old(DiskOf(loser))[p].Dir?, want, now)
      ensures match Res.CopyAny(old(DiskOf(loser)), p, old(DiskOf(loser)), name)
        case Success(d) => Now() == old(Now()).WithDisk(loser, d) && err == None
        case Failure(e) => Now() == old(Now()) && err == Some(e)
      ensures LoserKept(old(DiskOf(loser)), DiskOf(loser), err, p, name)
    {
      hide ConflictName, PreservedDirName, Res.KeptName, CopyTree, CopyFile, LoserKept;
      var d := DiskOf(loser);
      LoserPromise(d, p, Res.PreservedName(p, loser, d[p].Dir?, want, now));
      if want == Res.ChooseBoth {
        name := Res.KeptName(p, loser, now);
      } else if d[p].Dir? {
        name := PreservedDirName(p, loser, now);
      } else {
        name := ConflictName(p, loser, now);
      }
      var copied := if d[p].Dir? then CopyTree(d, p, d, name) else CopyFile(d[p], Base(p), d, name);
      if copied.Failure? { return name, Some(copied.error); }
      SetDisk(loser, copied.value);
      return name, None;
    }

    method Close(p: Path, isDir: bool, text: string) returns (err: Option<Error>)
      requires WalkFaithful(env)
      modifies this
      ensures Ended(Res.Closed(cfg, old(Now()), p, isDir, text), old(written), err)
    {
      hide CloseConflict, Sync.RecordSubtree, EntryFor, WalkFaithful;
      err := RecordPair(p, []);
      if err.Some? { return; }
      if isDir { RecordSubtree(p); }
      conflicts := CloseConflict(conflicts, p, text);
      a := a.(rows := MarkStatus(a.rows, p, Synced));
      b := b.(rows := MarkStatus(b.rows, p, Synced));
    }

    method ApplyResolution(p: Path, want: Res.Choice, now: Stamp) returns (err: Option<Error>)
      requires WalkFaithful(env)
      modifies this
      ensures Ended(Res.ApplyResolution(cfg, old(Now()), p, want, now), old(written), err)
      ensures ChoiceApplied(cfg, old(Now()), Now(), err, p, want, now)
    {
      hide Res.CopyAny, Res.Closed, Res.PreservedName, Remove, Sync.RecordSubtree, WalkFaithful, ChoiceApplied,
        LoserKept;
      ChoicePromise(cfg, Now(), p, want, now);
      var winner := want.Winner();
      var loser := winner.Opposite();
      var from, to := DiskOf(winner), DiskOf(loser);
      if p !in from { return Some(NotFound); }
      if from[p].Special? { return Some(Unsyncable); }
      var text := want.Text();
      if p in to {
        var name: Path;
        name, err := PreserveLoser(p, loser, want, now);
        if err.Some? { return; }
        text := text + ":" + name;
        if to[p].Dir? || StatOf(to[p]).kind != StatOf(from[p]).kind {
          var removed := Remove(DiskOf(loser), p, to[p].Dir?);
          if removed.Failure? { return Some(removed.error); }
          SetDisk(loser, removed.value);
        }
      }
      var copied := Res.CopyAny(from, p, DiskOf(loser), p);
      if copied.Failure? { return Some(copied.error); }
      SetDisk(loser, copied.value);
      err := Close(p, from[p].Dir?, text);
    }
  }
}
