// What the engine's operations do to the two trees, the table and the conflict list
// (internal/engine/engine.go, conflict.go, delete.go, resync.go, resolve.go), as functions.

module Settings {
  datatype FirstSyncPolicy = Union | AWins | BWins
  datatype ConflictPolicy = Preserve | NewerWins | Manual
  datatype DirDeletePolicy = PreserveUnknown | Force

  datatype Config = Config(
    first: FirstSyncPolicy, conflict: ConflictPolicy, dirDelete: DirDeletePolicy,
    hashMax: int, hashSample: int, exclude: seq<string>)
}

module Sync {
  import opened Digests
  import opened Disks
  import opened Events
  import opened Exclude
  import opened Names
  import opened Nodes
  import opened Options
  import opened Paths
  import opened Settings
  import opened Store

  /** One side: its tree and its half of the table. */
  datatype Replica = Replica(disk: Disk, rows: Rows)

  datatype State = State(a: Replica, b: Replica, conflicts: Conflicts) {
    function Of(side: Side): Replica {
      if side == SideA then a else b
    }

    function With(side: Side, r: Replica): State {
      if side == SideA then this.(a := r) else this.(b := r)
    }

    function WithDisk(side: Side, d: Disk): State {
      With(side, Of(side).(disk := d))
    }

    function WithRows(rowsA: Rows, rowsB: Rows): State {
      this.(a := a.(rows := rowsA), b := b.(rows := rowsB))
    }
  }

  /**
   * What the engine asks of the world while it works: the time at which it names a saved copy of a
   * path, and the order in which a directory walk visits what is at or under a path.
   */
  datatype Env = Env(clock: Path -> Stamp, walk: (Disk, Path) -> seq<Path>)

  /** Where an operation ended, the error it ended with, and the files it wrote on the way. */
  datatype Outcome = Outcome(state: State, error: Option<Error>, writes: seq<(Side, Path)>)

  function Done(s: State, writes: seq<(Side, Path)>): Outcome {
    Outcome(s, None, writes)
  }

  function Failed(s: State, e: Error): Outcome {
    Outcome(s, Some(e), [])
  }

  // ------------------------------------------------------------ recording

  function DigestOf(cfg: Config, n: Node): Digest {
    Compute(n, cfg.hashMax, cfg.hashSample)
  }

  function EntryFor(cfg: Config, n: Node): Entry {
    var st := StatOf(n);
    Entry(st.isDir, st.size, st.mtime, st.perms, Stored(DigestOf(cfg, n)), Synced)
  }

  function RecordPair(cfg: Config, s: State, p: Path): Result<State, Error> {
    if p !in s.a.disk || p !in s.b.disk then Failure(NotFound)
    else Success(s.WithRows(s.a.rows[p := EntryFor(cfg, s.a.disk[p])], s.b.rows[p := EntryFor(cfg, s.b.disk[p])]))
  }

  function RecordedUnder(cfg: Config, r: Replica, p: Path): Rows {
    r.rows + map x | x in r.disk && AtOrUnder(x, p) && !Excluded(cfg.exclude, x) :: EntryFor(cfg, r.disk[x])
  }

  function RecordSubtree(cfg: Config, s: State, p: Path): State {
    s.WithRows(RecordedUnder(cfg, s.a, p), RecordedUnder(cfg, s.b, p))
  }

  function ForgetSubtree(s: State, p: Path): State {
    s.WithRows(DeleteSubtree(s.a.rows, p), DeleteSubtree(s.b.rows, p))
  }

  /** recordPair as the last step of an operation. */
  function Recorded(cfg: Config, s: State, p: Path, writes: seq<(Side, Path)>): Outcome {
    match RecordPair(cfg, s, p)
    case Failure(e) => Outcome(s, Some(e), writes)
    case Success(t) => Done(t, writes)
  }

  // ------------------------------------------------------------- conflicts

  /** compareContent: digests decide, and without them sizes do. */
  predicate ContentDiffers(cfg: Config, m: Node, n: Node) {
    match Compare(DigestOf(cfg, m), DigestOf(cfg, n))
    case Same => false
    case Different => true
    case Indeterminate => StatOf(m).size != StatOf(n).size
  }

  /** The destination left on its own the state recorded for it, and its content is not the source's. */
  function DetectConflict(cfg: Config, s: State, src: Side, p: Path): Result<bool, Error> {
    var from, to := s.Of(src), s.Of(src.Opposite());
    if p !in to.disk || to.disk[p].Dir? then Success(false)
    else if p in to.rows && Unchanged(StatOf(to.disk[p]), to.rows[p].AsStat()) then Success(false)
    else if p !in from.disk then Failure(NotFound)
    else Success(ContentDiffers(cfg, from.disk[p], to.disk[p]))
  }

  /** CopyFile across: the node of one side at p over p on the other side. */
  function CopyAcross(s: State, src: Side, p: Path): Result<State, Error> {
    var from, to := s.Of(src), s.Of(src.Opposite());
    if p !in from.disk then Failure(NotFound)
    else
      match CopyFile(from.disk[p], Base(p), to.disk, p)
      case Failure(e) => Failure(e)
      case Success(d) => Success(s.WithDisk(src.Opposite(), d))
  }

  /** CopyFile aside, on one side: the node at p under a second name. */
  function CopyAside(s: State, side: Side, p: Path, name: Path): Result<State, Error> {
    var r := s.Of(side);
    if p !in r.disk then Failure(NotFound)
    else
      match CopyFile(r.disk[p], Base(p), r.disk, name)
      case Failure(e) => Failure(e)
      case Success(d) => Success(s.WithDisk(side, d))
  }

  function ConflictRecorded(cfg: Config, s: State, p: Path): State
    requires p in s.a.disk && p in s.b.disk
  {
    s.(conflicts := OpenConflict(s.conflicts, p, DigestOf(cfg, s.a.disk[p]), DigestOf(cfg, s.b.disk[p])))
  }

  function ConflictClosed(s: State, p: Path, how: string): State {
    s.(conflicts := CloseConflict(s.conflicts, p, how))
  }

  function KeepBoth(cfg: Config, s: State, src: Side, p: Path, now: Stamp): Outcome {
    var dst := src.Opposite();
    var name := ConflictName(p, dst, now);
    match CopyAside(s, dst, p, name)
    case Failure(e) => Failed(s, e)
    case Success(saved) =>
      match CopyAcross(saved, src, p)
      case Failure(e) => Outcome(saved, Some(e), [(dst, name)])
      case Success(copied) =>
        Recorded(cfg, ConflictClosed(copied, p, "preserve:" + name), p, [(dst, name), (dst, p)])
  }

  function NewerWinsOver(cfg: Config, s: State, src: Side, p: Path): Outcome
    requires p in s.a.disk && p in s.b.disk
  {
    var dst := src.Opposite();
    var winner := if StatOf(s.Of(dst).disk[p]).mtime > StatOf(s.Of(src).disk[p]).mtime then dst else src;
    match CopyAcross(s, winner, p)
    case Failure(e) => Failed(s, e)
    case Success(copied) =>
      Recorded(cfg, ConflictClosed(copied, p, "newer-wins"), p, [(winner.Opposite(), p)])
  }

  function MarkBoth(s: State, p: Path, status: Status): State {
    s.WithRows(MarkStatus(s.a.rows, p, status), MarkStatus(s.b.rows, p, status))
  }

  function ResolveConflict(cfg: Config, s: State, src: Side, p: Path, now: Stamp): Outcome {
    if p !in s.a.disk || p !in s.b.disk then Failed(s, NotFound)
    else
      var noted := ConflictRecorded(cfg, s, p);
      match cfg.conflict
      case Manual => Done(MarkBoth(noted, p, Conflicted), [])
      case NewerWins => NewerWinsOver(cfg, noted, src, p)
      case Preserve => KeepBoth(cfg, noted, src, p, now)
  }

  // ----------------------------------------------------------- propagation

  function PropagateFile(cfg: Config, s: State, src: Side, p: Path, now: Stamp): Outcome {
    match DetectConflict(cfg, s, src, p)
    case Failure(e) => Failed(s, e)
    case Success(conflict) =>
      if conflict then ResolveConflict(cfg, s, src, p, now)
      else
        match CopyAcross(s, src, p)
        case Failure(e) => Failed(s, e)
        case Success(copied) => Recorded(cfg, copied, p, [(src.Opposite(), p)])
  }

  function PropagateDir(cfg: Config, s: State, src: Side, p: Path): Outcome {
    var from, to := s.Of(src).disk, s.Of(src.Opposite()).disk;
    if p !in from then Failed(s, NotFound)
    else if !from[p].Dir? then Failed(s, NotDirectory)
    else if !HasEntries(from, p) then
      match Mkdir(StatOf(from[p]).perms, to, p)
      case Failure(e) => Failed(s, e)
      case Success(d) => Recorded(cfg, s.WithDisk(src.Opposite(), d), p, [(src.Opposite(), p)])
    else
      match CopyTree(from, p, to, p)
      case Failure(e) => Failed(s, e)
      case Success(d) =>
        match RecordPair(cfg, s.WithDisk(src.Opposite(), d), p)
        case Failure(e) => Failed(s.WithDisk(src.Opposite(), d), e)
        case Success(t) => Done(RecordSubtree(cfg, t, p), [(src.Opposite(), p)])
  }

  function PropagateContent(cfg: Config, s: State, src: Side, p: Path, isDir: bool, now: Stamp): Outcome {
    if isDir then PropagateDir(cfg, s, src, p) else PropagateFile(cfg, s, src, p, now)
  }

  function PropagateAttrs(cfg: Config, s: State, src: Side, p: Path): Outcome {
    var from, dst := s.Of(src).disk, src.Opposite();
    if p !in from then Failed(s, NotFound)
    else
      var d := s.Of(dst).disk;
      Recorded(cfg, s.WithDisk(dst, SyncAttrs(from[p], d, p)), p, if Attributed(from[p], d, p) then [(dst, p)] else [])
  }

  // --------------------------------------------------- removing directories

  /** Not in the table, or departed from it in stat and in digest. */
  predicate Unknown(cfg: Config, r: Replica, x: Path) {
    && x in r.disk && !Excluded(cfg.exclude, x) && !r.disk[x].Dir?
    && (x in r.rows ==>
          !Unchanged(StatOf(r.disk[x]), r.rows[x].AsStat())
          && Compare(DigestOf(cfg, r.disk[x]), r.rows[x].digest) != Same)
  }

  /** The visited paths nobody has seen on the other side. */
  function Unsynced(cfg: Config, r: Replica, visits: seq<Path>): (u: seq<Path>)
    ensures forall x :: x in u <==> x in visits && Unknown(cfg, r, x)
  {
    if visits == [] then []
    else
      var init, x := visits[..|visits| - 1], visits[|visits| - 1];
      var rest := Unsynced(cfg, r, init);
      assert visits == init + [x];
      if Unknown(cfg, r, x) then rest + [x] else rest
  }

  datatype Moved = Moved(disk: Disk, error: Option<Error>)

  function MoveAside(d: Disk, p: Path, to: Path, paths: seq<Path>): Moved
    requires forall x :: x in paths ==> AtOrUnder(x, p)
  {
    if paths == [] then Moved(d, None)
    else
      var n := |paths| - 1;
      assert forall x :: x in paths[..n] ==> x in paths;
      var before := MoveAside(d, p, to, paths[..n]);
      if before.error.Some? then before
      else
        match MoveFile(before.disk, paths[n], Rebase(paths[n], p, to))
        case Failure(e) => Moved(before.disk, Some(e))
        case Success(after) => Moved(after, None)
  }

  /** The walk below p, restricted to what it can meet there. */
  function Visits(env: Env, d: Disk, p: Path): (v: seq<Path>)
    ensures forall x :: x in v ==> AtOrUnder(x, p)
  {
    OnlyUnder(env.walk(d, p), p)
  }

  function OnlyUnder(v: seq<Path>, p: Path): (r: seq<Path>)
    ensures forall x :: x in r <==> x in v && AtOrUnder(x, p)
  {
    if v == [] then []
    else
      var init := v[..|v| - 1];
      assert v == init + [v[|v| - 1]];
      if AtOrUnder(v[|v| - 1], p) then OnlyUnder(init, p) + [v[|v| - 1]] else OnlyUnder(init, p)
  }

  predicate SetsAside(cfg: Config, env: Env, r: Replica, p: Path) {
    cfg.dirDelete != Force && Unsynced(cfg, r, Visits(env, r.disk, p)) != []
  }

  /** The tree once the directory is gone, or as far as it got. */
  function EmptiedDisk(cfg: Config, env: Env, r: Replica, p: Path, to: Path): Moved {
    if !SetsAside(cfg, env, r, p) then Moved(RemoveAll(r.disk, p), None)
    else
      var moved := MoveAside(r.disk, p, to, Unsynced(cfg, r, Visits(env, r.disk, p)));
      if moved.error.Some? then moved else Moved(RemoveAll(moved.disk, p), None)
  }

  function RemoveDir(cfg: Config, env: Env, s: State, side: Side, p: Path): Outcome {
    var to := PreservedDirName(p, side, env.clock(p));
    var emptied := EmptiedDisk(cfg, env, s.Of(side), p, to);
    var t := s.WithDisk(side, emptied.disk);
    if emptied.error.Some? then Outcome(t, emptied.error, [])
    else if SetsAside(cfg, env, s.Of(side), p) then
      Done(t.(conflicts := CloseConflict(OpenConflict(s.conflicts, p, ZERO, ZERO), p, "preserve-unknown:" + to)), [])
    else Done(t, [])
  }

  function PropagateDelete(cfg: Config, env: Env, s: State, src: Side, p: Path, isDir: bool): Outcome {
    var dst := src.Opposite();
    if isDir then
      var removed := RemoveDir(cfg, env, s, dst, p);
      if removed.error.Some? then removed else Done(ForgetSubtree(removed.state, p), [])
    else
      match Remove(s.Of(dst).disk, p, false)
      case Failure(e) => Failed(s, e)
      case Success(d) =>
        var t := s.WithDisk(dst, d);
        Done(t.WithRows(t.a.rows - {p}, t.b.rows - {p}), [])
  }

  // ---------------------------------------------------------- event handling

  /** The idempotence layer: the table already records, for both sides, what the source shows. */
  predicate AlreadySynced(cfg: Config, s: State, ev: Event) {
    var from, to := s.Of(ev.side), s.Of(ev.side.Opposite());
    && ev.kind != Move && ev.path in from.rows && ev.path in to.rows
    && (if ev.kind == Delete then ev.path !in to.disk
        else
          && ev.path in from.disk
          && Unchanged(StatOf(from.disk[ev.path]), from.rows[ev.path].AsStat())
          && Compare(from.rows[ev.path].digest, to.rows[ev.path].digest) == Same)
  }

  /** process, for every kind of event but a move. */
  function Process(cfg: Config, env: Env, s: State, ev: Event): Outcome
    requires ev.kind != Move
  {
    var from := s.Of(ev.side).disk;
    if AlreadySynced(cfg, s, ev) then Done(s, [])
    else if ev.kind != Delete && ev.path in from && from[ev.path].Special? then Done(s, [])
    else
      match ev.kind
      case Delete => PropagateDelete(cfg, env, s, ev.side, ev.path, ev.isDir)
      case Attrib => PropagateAttrs(cfg, s, ev.side, ev.path)
      case _ => PropagateContent(cfg, s, ev.side, ev.path, ev.isDir, env.clock(ev.path))
  }

  // ---------------------------------------------------------- reconciliation

  type Inventory = map<Path, Stat>

  function Scan(cfg: Config, d: Disk): Inventory {
    map p | p in d && !Excluded(cfg.exclude, p) :: StatOf(d[p])
  }

  datatype Verdict = Verdict(digestA: Digest, digestB: Digest, differs: bool)

  predicate SampledButStale(dA: Digest, dB: Digest, stA: Stat, stB: Stat) {
    dA.kind == PartialKind && dB.kind == PartialKind && !Unchanged(stA, stB)
  }

  function Judge(cfg: Config, a: Node, b: Node): Verdict {
    var dA, dB := DigestOf(cfg, a), DigestOf(cfg, b);
    Verdict(dA, dB, ContentDiffers(cfg, a, b) || SampledButStale(dA, dB, StatOf(a), StatOf(b)))
  }

  /** compareInParallel: a verdict for every path that is a file or link on both sides. */
  function CompareAll(cfg: Config, s: State): map<Path, Verdict> {
    map p | p in s.a.disk && p in s.b.disk && !Excluded(cfg.exclude, p)
            && Carries(s.a.disk[p]) && Carries(s.b.disk[p]) :: Judge(cfg, s.a.disk[p], s.b.disk[p])
  }

  predicate SideChanged(current: Digest, st: Stat, recorded: Entry) {
    || Compare(current, recorded.digest) != Same
    || (current.kind == PartialKind && !Unchanged(st, recorded.AsStat()))
  }

  function OriginOf(s: State, p: Path, v: Verdict, stA: Stat, stB: Stat): Option<Side> {
    if p !in s.a.rows || p !in s.b.rows then None
    else
      var changedA := SideChanged(v.digestA, stA, s.a.rows[p]);
      var changedB := SideChanged(v.digestB, stB, s.b.rows[p]);
      if changedA && !changedB then Some(SideA)
      else if changedB && !changedA then Some(SideB)
      else None
  }

  function NewerSide(stA: Stat, stB: Stat): Side {
    if stB.mtime > stA.mtime then SideB else SideA
  }

  function AttrOrigin(s: State, p: Path, stA: Stat, stB: Stat): Side {
    if p in s.a.rows && p in s.b.rows then
      var changedA := AttrsDiverged(stA, s.a.rows[p].AsStat());
      var changedB := AttrsDiverged(stB, s.b.rows[p].AsStat());
      if changedA && !changedB then SideA
      else if changedB && !changedA then SideB
      else NewerSide(stA, stB)
    else NewerSide(stA, stB)
  }

  function DeleteOneSided(cfg: Config, env: Env, s: State, present: Side, p: Path, isDir: bool): Outcome {
    if isDir then
      var removed := RemoveDir(cfg, env, s, present, p);
      if removed.error.Some? then removed else Done(ForgetSubtree(removed.state, p), [])
    else
      match Remove(s.Of(present).disk, p, false)
      case Failure(e) => Failed(s, e)
      case Success(d) => Done(ForgetSubtree(s.WithDisk(present, d), p), [])
  }

  /** Present on one side only: new here, or deleted there? */
  predicate MeansDeleted(cfg: Config, s: State, present: Side, p: Path) {
    match cfg.first
    case AWins => present == SideB
    case BWins => present == SideA
    case Union => p in s.Of(present.Opposite()).rows
  }

  function ReconcileOneSided(cfg: Config, env: Env, s: State, present: Side, p: Path, isDir: bool): Outcome {
    if MeansDeleted(cfg, s, present, p) then DeleteOneSided(cfg, env, s, present, p, isDir)
    else PropagateContent(cfg, s, present, p, isDir, env.clock(p))
  }

  function ReconcileAttrs(cfg: Config, s: State, p: Path, stA: Stat, stB: Stat): Outcome {
    PropagateAttrs(cfg, s, AttrOrigin(s, p, stA, stB), p)
  }

  function ReconcileDiffering(cfg: Config, env: Env, s: State, p: Path, stA: Stat, stB: Stat, v: Verdict): Outcome {
    match cfg.first
    case AWins => PropagateFile(cfg, s, SideA, p, env.clock(p))
    case BWins => PropagateFile(cfg, s, SideB, p, env.clock(p))
    case Union =>
      match OriginOf(s, p, v, stA, stB)
      case Some(origin) => PropagateFile(cfg, s, origin, p, env.clock(p))
      case None => ResolveConflict(cfg, s, NewerSide(stA, stB), p, env.clock(p))
  }

  /** Two files or links. */
  function ReconcileFiles(cfg: Config, env: Env, s: State, p: Path, stA: Stat, stB: Stat, v: Verdict): Outcome {
    if v.differs then ReconcileDiffering(cfg, env, s, p, stA, stB, v)
    else if AttrsDiverged(stA, stB) then ReconcileAttrs(cfg, s, p, stA, stB)
    else Recorded(cfg, s, p, [])
  }

  /** Without a verdict from the survey, contents are compared on the spot. */
  function CompareNow(cfg: Config, env: Env, s: State, p: Path, stA: Stat, stB: Stat): Outcome {
    if p !in s.a.disk || p !in s.b.disk then Done(s, [])
    else
      var a, b := s.a.disk[p], s.b.disk[p];
      ReconcileFiles(cfg, env, s, p, stA, stB, Verdict(DigestOf(cfg, a), DigestOf(cfg, b), ContentDiffers(cfg, a, b)))
  }

  /** One path: what happened, and whether its descendants are thereby settled. */
  datatype Acted = Acted(outcome: Outcome, oneSidedDir: bool, typeClash: bool)

  function Act(cfg: Config, env: Env, s: State, p: Path, stA: Option<Stat>, stB: Option<Stat>,
        v: Option<Verdict>): Acted {
    if (stA.Some? && stA.value.kind == SpecialKind) || (stB.Some? && stB.value.kind == SpecialKind) then
      Acted(Done(s, []), false, false)
    else
      match (stA, stB)
      case (None, None) => Acted(Done(s, []), false, false)
      case (Some(a), None) => Acted(ReconcileOneSided(cfg, env, s, SideA, p, a.isDir), a.isDir, false)
      case (None, Some(b)) => Acted(ReconcileOneSided(cfg, env, s, SideB, p, b.isDir), b.isDir, false)
      case (Some(a), Some(b)) =>
        if a.isDir && b.isDir then
          Acted(if AttrsDiverged(a, b) then ReconcileAttrs(cfg, s, p, a, b) else Done(s, []), false, false)
        else if a.isDir != b.isDir then
          Acted(Done(s.(conflicts := OpenConflict(s.conflicts, p, ZERO, ZERO)), []), false, true)
        else
          match v
          case Some(known) => Acted(ReconcileFiles(cfg, env, s, p, a, b, known), false, false)
          case None => Acted(CompareNow(cfg, env, s, p, a, b), false, false)
  }

  /** The two inventories and the verdicts, all taken before the first action. */
  datatype Survey = Survey(invA: Inventory, invB: Inventory, verdicts: map<Path, Verdict>)

  function Take(cfg: Config, s: State): Survey {
    Survey(Scan(cfg, s.a.disk), Scan(cfg, s.b.disk), CompareAll(cfg, s))
  }

  function Find<T>(m: map<Path, T>, p: Path): Option<T> {
    if p in m then Some(m[p]) else None
  }

  datatype Pass = Pass(state: State, handled: seq<Path>)

  /** One turn of the apply loop, deciding from the survey. */
  function StaleStep(cfg: Config, env: Env, survey: Survey, pass: Pass, p: Path): Pass {
    if UnderAny(p, pass.handled) then pass
    else
      var acted := Act(cfg, env, pass.state, p, Find(survey.invA, p), Find(survey.invB, p), Find(survey.verdicts, p));
      Pass(acted.outcome.state, if acted.oneSidedDir || acted.typeClash then pass.handled + [p] else pass.handled)
  }

  function StalePass(cfg: Config, env: Env, survey: Survey, s: State, order: seq<Path>): Pass {
    if order == [] then Pass(s, [])
    else StaleStep(cfg, env, survey, StalePass(cfg, env, survey, s, order[..|order| - 1]), order[|order| - 1])
  }

  /** reconcile over the whole tree: survey, then act path by path. */
  function Reconcile(cfg: Config, env: Env, s: State, order: seq<Path>): State {
    StalePass(cfg, env, Take(cfg, s), s, order).state
  }
}
