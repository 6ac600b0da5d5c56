// The dispatcher run with the engine itself as its handler: for all events but moves, and as long as no
// removal forgets rows of another component, any interleaving of the workers comes to handling one event
// after the other.

module Workers {
  import Dispatch
  import opened Events
  import opened Exclude
  import opened Frames
  import opened Like
  import opened Locality
  import opened Names
  import opened Options
  import opened Partitions
  import opened Passes
  import opened Paths
  import SavedCopies
  import opened Settings
  import opened Slices
  import opened Sync
  import Text

  // ------------------------------------------------------------------ who owns a path

  /** A synchronised path at the top of the tree. */
  predicate TopPath(cfg: Config, y: Path) {
    Visible(cfg, y) && '/' !in y
  }

  ghost predicate SavedAtTop(cfg: Config, env: Env, c: Path, y: Path) {
    TopPath(cfg, y) && Saves(c, y, env.clock(y))
  }

  /** A first component that is saved from a path at the top counts as the component of that path. */
  ghost function OwnerOf(cfg: Config, env: Env, c: string): string {
    if exists y :: SavedAtTop(cfg, env, c, y) then
      var y :| SavedAtTop(cfg, env, c, y); y
    else c
  }

  ghost function Owner(cfg: Config, env: Env, x: Path): string {
    OwnerOf(cfg, env, TopComponent(x))
  }

  lemma TopIsAbove(p: Path)
    requires p != "." && !Under(p, ".")
    ensures AtOrUnder(p, TopComponent(p))
  {
    DotSlash(p);
    UpToSlashAbove(p);
  }

  lemma DotSlash(p: Path)
    ensures Under(p, ".") <==> |p| >= 2 && p[0] == '.' && p[1] == '/'
  {
  }

  lemma {:induction false} UpToSlashAbove(p: string)
    ensures AtOrUnder(p, UpToSlash(p))
  {
    if p != "" && p[0] != '/' {
      UpToSlashAbove(p[1..]);
      var rest := UpToSlash(p[1..]);
      if p[1..] == rest {
        assert p == [p[0]] + rest;
      } else {
        assert p[..|rest| + 1] == [p[0]] + p[1..][..|rest|];
      }
    }
  }

  /** A synchronised path belongs to its own component. */
  lemma VisibleOwnsItself(cfg: Config, env: Env, p: Path)
    requires SavedExcluded(cfg) && Visible(cfg, p) && Relative(p)
    ensures Owner(cfg, env, p) == TopComponent(p)
  {
    hide Saves, Excluded, Clean, TopComponent, Under;
    var c := TopComponent(p);
    TopIsAbove(p);
    if y :| SavedAtTop(cfg, env, c, y) {
      if Excluded(cfg.exclude, c) && Under(p, c) { ExcludedBelow(cfg.exclude, p, c); }
      VisibleIsNotSaved(cfg, y, c, env.clock(y));
    }
  }

  /** So does everything around it. */
  lemma AroundIsOwned(cfg: Config, env: Env, p: Path, x: Path)
    requires SavedExcluded(cfg) && Visible(cfg, p) && Relative(p) && Around(x, p)
    ensures Owner(cfg, env, x) == TopComponent(p)
  {
    hide Visible, TopComponent, OwnerOf, Clean, Under;
    VisibleOwnsItself(cfg, env, p);
    AroundSharesTop(x, p);
  }

  /** And everything around its saved copies. */
  lemma CopyIsOwned(cfg: Config, env: Env, p: Path, side: Side, x: Path)
    requires SavedExcluded(cfg) && Visible(cfg, p) && Relative(p) && Around(x, ConflictName(p, side, env.clock(p)))
    ensures Owner(cfg, env, x) == TopComponent(p)
  {
    hide ConflictName, TopComponent, Excluded, Clean, Under, OwnerOf;
    var name := ConflictName(p, side, env.clock(p));
    if '/' in p {
      AroundCopySharesTop(x, p, side, env.clock(p));
      VisibleOwnsItself(cfg, env, p);
    } else {
      SlashlessName(p, side, env.clock(p));
      NameIsRelative(p, side, env.clock(p));
      AroundSharesTop(x, name);
      Slashless(name);
      Slashless(p);
      SavedCopies.SlashlessTop(name);
      SavedCopies.SlashlessTop(p);
      NameHasOwner(cfg, env, p, side);
    }
  }

  /** And everything around its preserved directories. */
  lemma PreservedIsOwned(cfg: Config, env: Env, p: Path, side: Side, x: Path)
    requires SavedExcluded(cfg) && Visible(cfg, p) && Relative(p) && Around(x, PreservedDirName(p, side, env.clock(p)))
    ensures Owner(cfg, env, x) == TopComponent(p)
  {
    hide PreservedDirName, TopComponent, Excluded, Clean, Under, OwnerOf;
    var at := env.clock(p);
    var to := PreservedDirName(p, side, at);
    if Under(to, x) {
      PreservedDirSitsBeside(p, side, at, x);
      AroundIsOwned(cfg, env, p, x);
    } else if '/' in p {
      PreservedBelowTop(p, side, at, x);
      VisibleOwnsItself(cfg, env, p);
    } else {
      PreservedTopIs(p, side, at, x);
      SavedCopies.SlashlessTop(p);
      Slashless(p);
      PreservedHasOwner(cfg, env, p, side);
    }
  }

  /** What lies in a directory preserved at the top has its name as first component. */
  lemma PreservedTopIs(p: Path, side: Side, at: Stamp, x: Path)
    requires Clean(p) && '/' !in p && AtOrUnder(x, PreservedDirName(p, side, at))
    ensures TopComponent(x) == PreservedDirName(p, side, at) && Text.LastIndex(p, '/') == -1
  {
    hide Clean, TopComponent, Under, Tag;
    var to := PreservedDirName(p, side, at);
    TagIsTagLike(side, at);
    AroundSharesTopLong(x, to);
    Slashless(p);
    Slashless(to);
    SavedCopies.SlashlessTop(to);
  }

  lemma PreservedHasOwner(cfg: Config, env: Env, p: Path, side: Side)
    requires SavedExcluded(cfg) && TopPath(cfg, p)
    ensures OwnerOf(cfg, env, PreservedDirName(p, side, env.clock(p))) == p
  {
    hide PreservedDirName, ConflictName, Excluded, Clean;
    var to := PreservedDirName(p, side, env.clock(p));
    assert SavedFor(to, p, side, env.clock(p));
    assert SavedAtTop(cfg, env, to, p);
    var y := OwnerOf(cfg, env, to);
    assert SavedAtTop(cfg, env, to, y);
    if y != p { SavesDisjoint(cfg, to, p, y, env.clock(p), env.clock(y)); }
  }

  lemma NameHasOwner(cfg: Config, env: Env, p: Path, side: Side)
    requires SavedExcluded(cfg) && TopPath(cfg, p)
    ensures OwnerOf(cfg, env, ConflictName(p, side, env.clock(p))) == p
  {
    hide ConflictName, Excluded, Clean, SavedFor;
    var name := ConflictName(p, side, env.clock(p));
    SavesItsNames(p, side, env.clock(p));
    assert SavedAtTop(cfg, env, name, p);
    var y := OwnerOf(cfg, env, name);
    assert SavedAtTop(cfg, env, name, y);
    if y != p { SavesDisjoint(cfg, name, p, y, env.clock(p), env.clock(y)); }
  }

  // ------------------------------------------------------------- the store, by component

  /** The paths of one component, saved copies included. */
  ghost function Region(cfg: Config, env: Env, c: string): iset<Path> {
    iset x: Path | Owner(cfg, env, x) == c
  }

  ghost function Part<T>(m: map<Path, T>, region: iset<Path>): map<Path, T> {
    map x | x in m && x in region :: m[x]
  }

  /** What a state holds of one component. */
  ghost function Slice(s: State, region: iset<Path>): State {
    State(Replica(Part(s.a.disk, region), Part(s.a.rows, region)), Replica(Part(s.b.disk, region), Part(s.b.rows, region)),
      Part(s.conflicts, region))
  }

  const NOTHING: State := State(Replica(map[], map[]), Replica(map[], map[]), map[])

  ghost function AllPaths(s: State): set<Path> {
    s.a.disk.Keys + s.b.disk.Keys + s.a.rows.Keys + s.b.rows.Keys + s.conflicts.Keys
  }

  /** The state as a store keyed by component. */
  ghost function Split(cfg: Config, env: Env, s: State): Dispatch.Store<State> {
    map c | c in (set x | x in AllPaths(s) :: Owner(cfg, env, x)) :: Slice(s, Region(cfg, env, c))
  }

  lemma SliceAt(s: State, region: iset<Path>, x: Path)
    ensures if x in region then EqAt(Slice(s, region), s, x) else EqAt(Slice(s, region), NOTHING, x)
  {
  }

  lemma StatesEqual(s: State, t: State)
    requires forall x :: EqAt(s, t, x)
    ensures s == t
  {
    forall x ensures Sync.Find(s.a.disk, x) == Sync.Find(t.a.disk, x) && Sync.Find(s.b.disk, x) == Sync.Find(t.b.disk, x)
      && Sync.Find(s.a.rows, x) == Sync.Find(t.a.rows, x) && Sync.Find(s.b.rows, x) == Sync.Find(t.b.rows, x)
      && Sync.Find(s.conflicts, x) == Sync.Find(t.conflicts, x)
    {
      assert EqAt(s, t, x);
    }
    SameMap(s.a.disk, t.a.disk);
    SameMap(s.b.disk, t.b.disk);
    SameMap(s.a.rows, t.a.rows);
    SameMap(s.b.rows, t.b.rows);
    SameMap(s.conflicts, t.conflicts);
  }

  lemma SameMap<T>(m: map<Path, T>, n: map<Path, T>)
    requires forall x :: Sync.Find(m, x) == Sync.Find(n, x)
    ensures m == n
  {
    forall x ensures (x in m <==> x in n) && (x in m ==> m[x] == n[x]) {
      assert Sync.Find(m, x) == Sync.Find(n, x);
    }
  }

  lemma SlicesEqual(s: State, t: State, region: iset<Path>)
    requires EqOn(region, s, t)
    ensures Slice(s, region) == Slice(t, region)
  {
    hide Slice, EqAt;
    forall x ensures EqAt(Slice(s, region), Slice(t, region), x) {
      SliceAt(s, region, x);
      SliceAt(t, region, x);
      if x in region {
        EqAtChain(Slice(s, region), s, t, x);
        EqAtBack(Slice(t, region), t, x);
        EqAtChain(Slice(s, region), t, Slice(t, region), x);
      } else {
        EqAtBack(Slice(t, region), NOTHING, x);
        EqAtChain(Slice(s, region), NOTHING, Slice(t, region), x);
      }
    }
    StatesEqual(Slice(s, region), Slice(t, region));
  }

  lemma EqAtBack(s: State, t: State, x: Path)
    requires EqAt(s, t, x)
    ensures EqAt(t, s, x)
  {
  }

  lemma EmptySlice(s: State, region: iset<Path>)
    ensures Slice(s, region) == NOTHING <==> forall x :: x in AllPaths(s) ==> x !in region
  {
    if forall x :: x in AllPaths(s) ==> x !in region {
      forall x ensures EqAt(Slice(s, region), NOTHING, x) {
        SliceAt(s, region, x);
        assert x in region ==> x !in AllPaths(s);
      }
      StatesEqual(Slice(s, region), NOTHING);
    } else {
      var x :| x in AllPaths(s) && x in region;
      SliceAt(s, region, x);
    }
  }

  lemma SplitFind(cfg: Config, env: Env, s: State, c: string)
    ensures var slice := Slice(s, Region(cfg, env, c));
      Dispatch.Find(Split(cfg, env, s), c) == if slice == NOTHING then None else Some(slice)
  {
    hide Slice, AllPaths, Owner;
    EmptySlice(s, Region(cfg, env, c));
  }

  /** No two states have the same store. */
  lemma SplitInjective(cfg: Config, env: Env, s: State, t: State)
    requires Split(cfg, env, s) == Split(cfg, env, t)
    ensures s == t
  {
    hide Slice, Split, EqAt, Owner;
    forall x ensures EqAt(s, t, x) {
      var c := Owner(cfg, env, x);
      var region := Region(cfg, env, c);
      SplitFind(cfg, env, s, c);
      SplitFind(cfg, env, t, c);
      SliceAt(s, region, x);
      SliceAt(t, region, x);
      EqAtBack(Slice(s, region), s, x);
      EqAtChain(s, Slice(s, region), t, x);
    }
    StatesEqual(s, t);
  }

  // ------------------------------------------------------------- the engine as a handler

  /** Events of visible paths, but moves. */
  predicate InScope(cfg: Config, ev: Event) {
    ev.kind != Move && Visible(cfg, ev.path) && Relative(ev.path)
  }

  /** A removal of a directory, unless recognised, covers by letter case no row of another component. */
  ghost predicate Fits(cfg: Config, s: State, ev: Event) {
    RemovesDir(ev) && !AlreadySynced(cfg, s, ev) ==> RowsAtHome(s, ev.path)
  }

  ghost predicate AllInScope(cfg: Config, events: seq<Event>) {
    forall ev :: ev in events ==> InScope(cfg, ev)
  }

  lemma ScopeParts(cfg: Config, events: seq<Event>)
    requires AllInScope(cfg, events) && events != []
    ensures AllInScope(cfg, events[..|events| - 1]) && InScope(cfg, events[|events| - 1])
    ensures events[|events| - 1].kind != Move
  {
    hide Visible, Relative;
    assert forall ev :: ev in events[..|events| - 1] ==> ev in events;
    assert events[|events| - 1] in events;
  }

  lemma RegionHolds(cfg: Config, env: Env, p: Path)
    requires SavedExcluded(cfg) && Visible(cfg, p) && Relative(p)
    ensures Holds(Region(cfg, env, TopComponent(p)), p, env.clock(p))
  {
    hide Visible, Relative, TopComponent, Around, ConflictName, PreservedDirName, Owner;
    forall x | Around(x, p) ensures x in Region(cfg, env, TopComponent(p)) {
      AroundIsOwned(cfg, env, p, x);
    }
    forall x, side: Side | Around(x, ConflictName(p, side, env.clock(p)))
      ensures x in Region(cfg, env, TopComponent(p))
    {
      CopyIsOwned(cfg, env, p, side, x);
    }
    forall x, side: Side | Around(x, PreservedDirName(p, side, env.clock(p)))
      ensures x in Region(cfg, env, TopComponent(p))
    {
      PreservedIsOwned(cfg, env, p, side, x);
    }
  }

  /** Outside its component, saved copies counted in, an event changes nothing. */
  lemma KeptOutside(cfg: Config, env: Env, s: State, ev: Event, x: Path)
    requires SavedExcluded(cfg) && InScope(cfg, ev) && Fits(cfg, s, ev) && x !in Region(cfg, env, TopComponent(ev.path))
    ensures EqAt(s, Process(cfg, env, s, ev).state, x)
  {
    hide Visible, Relative, TopComponent, Around, ConflictName, PreservedDirName, Region, Process, EqAt, SavesCopy,
      RowsAtHome, CaseUnder, AlreadySynced;
    RegionHolds(cfg, env, ev.path);
    if RemovesDir(ev) && AlreadySynced(cfg, s, ev) {
      RecognisedKeeps(cfg, env, s, ev, x);
    } else if RemovesDir(ev) {
      if CaseUnder(x, ev.path) { RowsOutside(cfg, env, s, ev.path, x); }
      RemovalKeepsOutside(cfg, env, s, ev, x);
    } else {
      EventKeeps(cfg, env, s, ev, x);
    }
  }

  /** Covered by p, a row belongs to the component of p. */
  lemma RowsOutside(cfg: Config, env: Env, s: State, p: Path, x: Path)
    requires SavedExcluded(cfg) && Visible(cfg, p) && Relative(p) && RowsAtHome(s, p)
    requires x !in Region(cfg, env, TopComponent(p)) && CaseUnder(x, p)
    ensures x !in s.a.rows && x !in s.b.rows
  {
    hide Visible, Relative, TopComponent, OwnerOf, CaseUnder;
    VisibleOwnsItself(cfg, env, p);
  }

  lemma RemovalKeepsOutside(cfg: Config, env: Env, s: State, ev: Event, x: Path)
    requires RemovesDir(ev) && !Around(x, ev.path)
    requires !Around(x, PreservedDirName(ev.path, ev.side.Opposite(), env.clock(ev.path)))
    requires CaseUnder(x, ev.path) ==> x !in s.a.rows && x !in s.b.rows
    ensures EqAt(s, Process(cfg, env, s, ev).state, x)
  {
    hide AlreadySynced, PropagateDelete, EqAt, Around, PreservedDirName, CaseUnder;
    EqAtSelf(s, x);
    DirRemovalKeeps(cfg, env, s, ev.side, ev.path, x);
  }

  lemma OwnPathInRegion(cfg: Config, env: Env, p: Path)
    requires SavedExcluded(cfg) && Visible(cfg, p) && Relative(p)
    ensures p in Region(cfg, env, TopComponent(p))
  {
    hide Visible, Relative, TopComponent, OwnerOf;
    AroundIsOwned(cfg, env, p, p);
  }

  lemma RecognisedKeeps(cfg: Config, env: Env, s: State, ev: Event, x: Path)
    requires ev.kind == Delete && AlreadySynced(cfg, s, ev)
    ensures EqAt(s, Process(cfg, env, s, ev).state, x)
  {
    hide AlreadySynced;
  }

  lemma SliceFits(cfg: Config, s: State, region: iset<Path>, ev: Event)
    requires Fits(cfg, s, ev) && ev.path in region
    ensures Fits(cfg, Slice(s, region), ev)
  {
    hide CaseUnder, TopComponent, AlreadySynced, EqAt;
    SliceAt(s, region, ev.path);
    SameSynced(cfg, s, Slice(s, region), ev);
  }

  lemma SameSynced(cfg: Config, s: State, t: State, ev: Event)
    requires EqAt(t, s, ev.path)
    ensures AlreadySynced(cfg, t, ev) <==> AlreadySynced(cfg, s, ev)
  {
  }

  /** Handling an event on the slice of its component gives that slice of what handling it gives. */
  lemma SliceHandled(cfg: Config, env: Env, s: State, ev: Event)
    requires SavedExcluded(cfg) && WalkLocal(env) && InScope(cfg, ev) && Fits(cfg, s, ev)
    ensures var region := Region(cfg, env, TopComponent(ev.path));
      Process(cfg, env, Slice(s, region), ev).state == Slice(Process(cfg, env, s, ev).state, region)
  {
    hide Visible, Relative, TopComponent, Region, Process, EqAt, Slice, Holds, Fits, WalkLocal;
    var region := Region(cfg, env, TopComponent(ev.path));
    var part := Slice(s, region);
    var u, t := Process(cfg, env, part, ev).state, Process(cfg, env, s, ev).state;
    RegionHolds(cfg, env, ev.path);
    assert EqOn(region, part, s) by {
      forall x | x in region ensures EqAt(part, s, x) { SliceAt(s, region, x); }
    }
    EventOn(cfg, env, region, part, s, ev);
    OwnPathInRegion(cfg, env, ev.path);
    SliceFits(cfg, s, region, ev);
    forall x ensures EqAt(u, Slice(t, region), x) {
      SliceAt(t, region, x);
      if x in region {
        EqAtBack(Slice(t, region), t, x);
        EqAtChain(u, t, Slice(t, region), x);
      } else {
        KeptOutside(cfg, env, part, ev, x);
        SliceAt(s, region, x);
        EqAtBack(part, u, x);
        EqAtChain(u, part, NOTHING, x);
        EqAtBack(Slice(t, region), NOTHING, x);
        EqAtChain(u, NOTHING, Slice(t, region), x);
      }
    }
    StatesEqual(u, Slice(t, region));
  }

  ghost function Get(store: Dispatch.Store<State>, c: string): State {
    if c in store then store[c] else NOTHING
  }

  ghost function Put(store: Dispatch.Store<State>, c: string, slice: State): Dispatch.Store<State> {
    if slice == NOTHING then store - {c} else store[c := slice]
  }

  /** The engine, reading and writing one component. */
  ghost function EngineStep(cfg: Config, env: Env, ev: Event, store: Dispatch.Store<State>): Dispatch.Store<State> {
    if InScope(cfg, ev) then
      Put(store, TopComponent(ev.path), Process(cfg, env, Get(store, TopComponent(ev.path)), ev).state)
    else store
  }

  lemma StoresEqual(m: Dispatch.Store<State>, n: Dispatch.Store<State>)
    requires forall c :: Dispatch.Find(m, c) == Dispatch.Find(n, c)
    ensures m == n
  {
    forall c ensures (c in m <==> c in n) && (c in m ==> m[c] == n[c]) {
      assert Dispatch.Find(m, c) == Dispatch.Find(n, c);
    }
  }

  lemma EngineStepSplits(cfg: Config, env: Env, s: State, ev: Event)
    requires SavedExcluded(cfg) && WalkLocal(env) && InScope(cfg, ev) && Fits(cfg, s, ev)
    ensures EngineStep(cfg, env, ev, Split(cfg, env, s)) == Split(cfg, env, Process(cfg, env, s, ev).state)
  {
    hide Visible, Relative, Fits, WalkLocal, TopComponent, Region, Process, Slice, Split;
    var t, top := Process(cfg, env, s, ev).state, TopComponent(ev.path);
    SplitFind(cfg, env, s, top);
    assert Get(Split(cfg, env, s), top) == Slice(s, Region(cfg, env, top));
    SliceHandled(cfg, env, s, ev);
    forall c
      ensures Dispatch.Find(EngineStep(cfg, env, ev, Split(cfg, env, s)), c) == Dispatch.Find(Split(cfg, env, t), c)
    {
      SplitFind(cfg, env, t, c);
      if c != top {
        SplitFind(cfg, env, s, c);
        OtherSlices(cfg, env, s, ev, c);
      }
    }
    StoresEqual(EngineStep(cfg, env, ev, Split(cfg, env, s)), Split(cfg, env, t));
  }

  lemma OtherSlices(cfg: Config, env: Env, s: State, ev: Event, c: string)
    requires SavedExcluded(cfg) && InScope(cfg, ev) && Fits(cfg, s, ev) && c != TopComponent(ev.path)
    ensures Slice(Process(cfg, env, s, ev).state, Region(cfg, env, c)) == Slice(s, Region(cfg, env, c))
  {
    hide Visible, Relative, Fits, TopComponent, Process, Slice, EqAt, Owner;
    var t, region := Process(cfg, env, s, ev).state, Region(cfg, env, c);
    forall x | x in region ensures EqAt(s, t, x) {
      KeptOutside(cfg, env, s, ev, x);
    }
    SlicesEqual(s, t, region);
  }

  /** Handling one event in a single step. */
  ghost function AtOnce(cfg: Config, env: Env): Dispatch.Handler<State> {
    Dispatch.Handler(ev => 1, (ev, i, store) => EngineStep(cfg, env, ev, store))
  }

  /** The handler does with the event what the engine does. */
  ghost predicate RunsOn(cfg: Config, env: Env, h: Dispatch.Handler<State>, s: State, ev: Event)
    requires ev.kind != Move
  {
    Dispatch.RunFrom(h, ev, 0, Split(cfg, env, s)) == Split(cfg, env, Process(cfg, env, s, ev).state)
  }

  /** It does so for every event in scope, but for removals that forget rows of another component. */
  ghost predicate RunsEngine(cfg: Config, env: Env, h: Dispatch.Handler<State>) {
    forall s, ev :: InScope(cfg, ev) && Fits(cfg, s, ev) ==> RunsOn(cfg, env, h, s, ev)
  }

  /** Such a handler exists, and it keeps to the component of its event. */
  lemma EngineIsLocal(cfg: Config, env: Env)
    requires SavedExcluded(cfg) && WalkLocal(env)
    ensures Dispatch.Local(AtOnce(cfg, env)) && RunsEngine(cfg, env, AtOnce(cfg, env))
  {
    hide Visible, Relative, Fits, WalkLocal, TopComponent, Process, Split, EngineStep;
    var h := AtOnce(cfg, env);
    forall ev, i: nat, s, k | k !in Dispatch.Tops(ev)
      ensures Dispatch.Find(h.step(ev, i, s), k) == Dispatch.Find(s, k)
    {
      StepKeepsOthers(cfg, env, ev, s, k);
    }
    forall ev, i: nat, s, t | forall k :: k in Dispatch.Tops(ev) ==> Dispatch.Find(s, k) == Dispatch.Find(t, k)
      ensures forall k :: k in Dispatch.Tops(ev) ==>
        Dispatch.Find(h.step(ev, i, s), k) == Dispatch.Find(h.step(ev, i, t), k)
    {
      forall k | k in Dispatch.Tops(ev)
        ensures Dispatch.Find(h.step(ev, i, s), k) == Dispatch.Find(h.step(ev, i, t), k)
      {
        StepDependsOnOwn(cfg, env, ev, s, t, k);
      }
    }
    forall s, ev | InScope(cfg, ev) && Fits(cfg, s, ev) ensures RunsOn(cfg, env, h, s, ev) {
      EngineStepSplits(cfg, env, s, ev);
      assert Dispatch.RunFrom(h, ev, 0, Split(cfg, env, s)) == h.step(ev, 0, Split(cfg, env, s));
    }
  }

  lemma StepKeepsOthers(cfg: Config, env: Env, ev: Event, store: Dispatch.Store<State>, k: string)
    requires k !in Dispatch.Tops(ev)
    ensures Dispatch.Find(EngineStep(cfg, env, ev, store), k) == Dispatch.Find(store, k)
  {
    hide TopComponent, Process, Visible;
  }

  lemma StepDependsOnOwn(cfg: Config, env: Env, ev: Event, s: Dispatch.Store<State>, t: Dispatch.Store<State>,
        k: string)
    requires forall c :: c in Dispatch.Tops(ev) ==> Dispatch.Find(s, c) == Dispatch.Find(t, c)
    requires k in Dispatch.Tops(ev)
    ensures Dispatch.Find(EngineStep(cfg, env, ev, s), k) == Dispatch.Find(EngineStep(cfg, env, ev, t), k)
  {
    hide TopComponent, Process, Visible;
    var top := TopComponent(ev.path);
    assert top in Dispatch.Tops(ev);
    assert Dispatch.Find(s, top) == Dispatch.Find(t, top) && Dispatch.Find(s, k) == Dispatch.Find(t, k);
  }

  // ------------------------------------------------------------------------ every run

  /** The engine handling one event after the other. */
  ghost function OneByOne(cfg: Config, env: Env, events: seq<Event>, s: State): State
    requires AllInScope(cfg, events)
  {
    if events == [] then s
    else
      ScopeParts(cfg, events);
      hide AllInScope, InScope;
      Process(cfg, env, OneByOne(cfg, env, events[..|events| - 1], s), events[|events| - 1]).state
  }

  /** Handled one after the other, no removal forgets rows of another component. */
  ghost predicate StaysHome(cfg: Config, env: Env, events: seq<Event>, s: State)
    requires AllInScope(cfg, events)
  {
    if events == [] then true
    else
      ScopeParts(cfg, events);
      hide AllInScope, InScope;
      var n := |events| - 1;
      StaysHome(cfg, env, events[..n], s) && Fits(cfg, OneByOne(cfg, env, events[..n], s), events[n])
  }

  /** Files may go and directories may come: without removals of directories there is nothing to ask. */
  lemma {:induction false} NoDirRemovalStays(cfg: Config, env: Env, events: seq<Event>, s: State)
    requires AllInScope(cfg, events) && forall ev :: ev in events ==> !RemovesDir(ev)
    ensures StaysHome(cfg, env, events, s)
  {
    hide InScope, AllInScope, OneByOne;
    if events != [] {
      ScopeParts(cfg, events);
      var n := |events| - 1;
      assert events[n] in events && forall ev :: ev in events[..n] ==> ev in events;
      NoDirRemovalStays(cfg, env, events[..n], s);
    }
  }

  lemma {:induction false} SequentialIsOneByOne(cfg: Config, env: Env, h: Dispatch.Handler<State>,
        events: seq<Event>, s: State)
    requires RunsEngine(cfg, env, h) && AllInScope(cfg, events) && StaysHome(cfg, env, events, s)
    ensures Dispatch.Sequential(h, events, Split(cfg, env, s)) == Split(cfg, env, OneByOne(cfg, env, events, s))
  {
    hide Process, Split, InScope, AllInScope, Fits;
    if events != [] {
      ScopeParts(cfg, events);
      var n := |events| - 1;
      SequentialIsOneByOne(cfg, env, h, events[..n], s);
      assert RunsOn(cfg, env, h, OneByOne(cfg, env, events[..n], s), events[n]);
    }
  }

  /**
   * Parallel equals sequential, for the engine. For any number of workers and any interleaving of their
   * steps, if each event is handled in steps that keep to its component, saved copies counted with their
   * originals, and come to what the engine does, and if no removal, in turn, forgets rows of another
   * component: once all events are taken and nothing is in flight, the store is that of the one state that
   * handling them one by one ends in.
   */
  lemma EngineParallelIsSequential(cfg: Config, env: Env, h: Dispatch.Handler<State>, input: seq<Event>, s0: State,
        workers: int, run: seq<Dispatch.Action>)
    requires Dispatch.Local(h) && RunsEngine(cfg, env, h)
    requires AllInScope(cfg, input) && StaysHome(cfg, env, input, s0)
    requires Dispatch.Reached(h, input, Split(cfg, env, s0), workers, run).Some?
    requires var s := Dispatch.Reached(h, input, Split(cfg, env, s0), workers, run).value;
      s.sent == |input| && s.inflight == 0 && s.loop == Dispatch.Ready
    ensures var s := Dispatch.Reached(h, input, Split(cfg, env, s0), workers, run).value;
      forall t :: s.store == Split(cfg, env, t) <==> t == OneByOne(cfg, env, input, s0)
  {
    hide Dispatch.Reached, Dispatch.Local, Dispatch.Sequential, RunsEngine, AllInScope, Split, OneByOne, StaysHome;
    Dispatch.ParallelIsSequential(h, input, Split(cfg, env, s0), workers, run);
    SequentialIsOneByOne(cfg, env, h, input, s0);
    var end := OneByOne(cfg, env, input, s0);
    forall t | Split(cfg, env, t) == Split(cfg, env, end) ensures t == end {
      SplitInjective(cfg, env, t, end);
    }
  }
}
