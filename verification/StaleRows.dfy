// The one trace an old inventory can leave: the pass that looks again records once more what lies
// below a copied directory, so a record lost in between is there again (internal/engine/resync.go,
// internal/state/state.go).

module StaleRows {
  import opened Actions
  import opened Disks
  import opened Frames
  import opened Like
  import opened Nodes
  import opened Options
  import opened Passes
  import opened Paths
  import opened Reconciled
  import opened Settings
  import opened Stale
  import opened Store
  import opened Sync
  import opened Twins

  // ------------------------------------------------------------- which turns remove

  /** The turn removes what one side alone has, and with it the rows it covers up to letter case. */
  ghost predicate Dropped(cfg: Config, s0: State, order: seq<Path>, j: nat)
    requires j < |order|
  {
    Doomed(cfg, s0, order[j]) && (cfg.first == Union ==> Twinless(cfg, s0, order[..j], order[j]))
  }

  /** One of the turns from lo on and before hi drops the rows of x. */
  ghost predicate RemovedIn(cfg: Config, s0: State, order: seq<Path>, lo: nat, hi: nat, x: Path)
    requires hi <= |order|
  {
    exists j: nat :: lo <= j < hi && CaseUnder(x, order[j]) && Dropped(cfg, s0, order, j)
  }

  lemma RemovedInStep(cfg: Config, s0: State, order: seq<Path>, lo: nat, hi: nat, x: Path)
    requires lo <= hi < |order|
    ensures RemovedIn(cfg, s0, order, lo, hi + 1, x) <==>
      RemovedIn(cfg, s0, order, lo, hi, x) || (CaseUnder(x, order[hi]) && Dropped(cfg, s0, order, hi))
  {
    hide Dropped, CaseUnder;
  }

  lemma DroppedAtTurn(cfg: Config, env: Env, s0: State, order: seq<Path>, j: nat)
    requires Start(cfg, env, s0) && UnionOrder(cfg, s0, order) && j < |order|
    ensures var pass := PassAt(cfg, env, s0, order, j);
      if UnderAny(order[j], pass.handled) then !Dropped(cfg, s0, order, j)
      else Removes(cfg, pass.state, order[j]) <==> Dropped(cfg, s0, order, j)
  {
    hide Start, UnionOrder, PassInv, Next, Turn, ActNow, Ready, PassAt, Placed, RowsLeft, UnderAny, Grown,
      Removes, Twinless;
    var q, pass := order[j], PassAt(cfg, env, s0, order, j);
    TurnAt(cfg, env, s0, order, j);
    HandledFact(cfg, env, s0, order[..j], pass);
    if UnderAny(q, pass.handled) {
      SkippedIsNotPlaced(s0, order[..j], pass.handled, q);
    } else {
      TurnIsPlaced(cfg, env, s0, order[..j], pass, q);
      FreshInOrder(cfg, s0, order, j);
      RowsExactly(cfg, env, s0, order, j, q);
      TurnSees(cfg, env, s0, order, j);
      RemovedNow(cfg, s0, pass.state, order[..j], q);
    }
  }

  // ------------------------------------------------- below a directory that was copied

  /** A directory one side lacked took its turn, and x lies below it. */
  ghost predicate Settling(cfg: Config, env: Env, s0: State, order: seq<Path>, i: nat, x: Path) {
    && Start(cfg, env, s0) && UnionOrder(cfg, s0, order) && i < |order| && Visible(cfg, x)
    && !UnderAny(order[i], PassAt(cfg, env, s0, order, i).handled)
    && LoneSide(s0, order[i]).Some? && Under(x, order[i])
  }

  lemma {:induction false} StaysHandled(cfg: Config, env: Env, s0: State, order: seq<Path>, i: nat, n: nat, x: Path)
    requires Settling(cfg, env, s0, order, i, x) && i < n <= |order|
    ensures order[i] in PassAt(cfg, env, s0, order, n).handled
    ensures BelowLone(s0, PassAt(cfg, env, s0, order, n).handled, x)
    decreases n
  {
    hide Start, UnionOrder, PassInv, Next, Turn, ActNow, Ready, PassAt, UnderAny, LoneSide;
    TurnAt(cfg, env, s0, order, n - 1);
    if n > i + 1 {
      StaysHandled(cfg, env, s0, order, i, n - 1, x);
    }
  }

  lemma SettlingParts(cfg: Config, env: Env, s0: State, order: seq<Path>, i: nat, x: Path)
    requires Settling(cfg, env, s0, order, i, x)
    ensures Start(cfg, env, s0) && UnionOrder(cfg, s0, order) && i < |order| && Visible(cfg, x)
    ensures SavedExcluded(cfg)
  {
  }

  /** One later turn, seen from below the settled directory. */
  lemma LaterTurnBelow(cfg: Config, env: Env, s0: State, order: seq<Path>, i: nat, n: nat, x: Path)
    requires Settling(cfg, env, s0, order, i, x) && i < n < |order|
    ensures var pass, after, q := PassAt(cfg, env, s0, order, n), PassAt(cfg, env, s0, order, n + 1), order[n];
      && At(after.state.a.disk, x) == At(pass.state.a.disk, x) && At(after.state.b.disk, x) == At(pass.state.b.disk, x)
      && (UnderAny(q, pass.handled) ==> after == pass)
      && (!UnderAny(q, pass.handled) ==>
            && !AtOrUnder(x, q) && Ready(cfg, env, pass.state, q)
            && after.state == ActNow(cfg, env, pass.state, q).outcome.state)
  {
    hide Start, UnionOrder, PassInv, Next, Turn, ActNow, Ready, PassAt, UnderAny, Grown, LoneSide, Visible,
      BelowLone, HandledRight, Settling, AtOrUnder;
    SettlingParts(cfg, env, s0, order, i, x);
    StaysHandled(cfg, env, s0, order, i, n, x);
    TurnAt(cfg, env, s0, order, n);
    var pass, after := PassAt(cfg, env, s0, order, n), PassAt(cfg, env, s0, order, n + 1);
    HandledFact(cfg, env, s0, order[..n], pass);
    if !UnderAny(order[n], pass.handled) {
      BelowLoneUntouched(cfg, env, s0, order[..n], pass, after.state, order[n], x);
    }
  }

  /** The rows of x after the first lo turns held the record; they do until a turn drops them. */
  ghost predicate RecordLasts(cfg: Config, s0: State, order: seq<Path>, lo: nat, n: nat, s: State, x: Path, node: Node)
    requires n <= |order|
  {
    && Sync.Find(s.a.rows, x) == (if RemovedIn(cfg, s0, order, lo, n, x) then None else Some(EntryFor(cfg, node)))
    && Sync.Find(s.b.rows, x) == (if RemovedIn(cfg, s0, order, lo, n, x) then None else Some(EntryFor(cfg, node)))
  }

  lemma RecordFirst(cfg: Config, s0: State, order: seq<Path>, lo: nat, s: State, x: Path, node: Node)
    requires lo <= |order|
    requires Sync.Find(s.a.rows, x) == Sync.Find(s.b.rows, x) == Some(EntryFor(cfg, node))
    ensures RecordLasts(cfg, s0, order, lo, lo, s, x, node)
  {
    hide Dropped, EntryFor, CaseUnder;
  }

  /** One turn that takes place, at a path x is not at or below. */
  lemma RecordThrough(cfg: Config, env: Env, s0: State, order: seq<Path>, lo: nat, n: nat, s: State, x: Path,
        node: Node)
    requires lo <= n < |order| && RecordLasts(cfg, s0, order, lo, n, s, x, node)
    requires Ready(cfg, env, s, order[n]) && !AtOrUnder(x, order[n])
    requires Removes(cfg, s, order[n]) <==> Dropped(cfg, s0, order, n)
    ensures RecordLasts(cfg, s0, order, lo, n + 1, ActNow(cfg, env, s, order[n]).outcome.state, x, node)
  {
    hide Dropped, EntryFor, CaseUnder, Ready, ActNow, Removes, Under, RemovedIn, LoneOn;
    TurnRows(cfg, env, s, order[n], x);
    RemovedInStep(cfg, s0, order, lo, n, x);
  }

  lemma RecordIdle(cfg: Config, s0: State, order: seq<Path>, lo: nat, n: nat, s: State, t: State, x: Path, node: Node)
    requires lo <= n < |order| && RecordLasts(cfg, s0, order, lo, n, s, x, node)
    requires RowsAgreeAt(s, t, x) && !Dropped(cfg, s0, order, n)
    ensures RecordLasts(cfg, s0, order, lo, n + 1, t, x, node)
  {
    hide Dropped, EntryFor, CaseUnder, RemovedIn;
    RemovedInStep(cfg, s0, order, lo, n, x);
  }

  /** At the turn of the directory itself: everything below it is as at the start. */
  lemma StillThere(cfg: Config, env: Env, s0: State, order: seq<Path>, i: nat, x: Path)
    requires Settling(cfg, env, s0, order, i, x)
    ensures var s := PassAt(cfg, env, s0, order, i).state;
      && At(s.a.disk, x) == At(s0.a.disk, x) && At(s.b.disk, x) == At(s0.b.disk, x)
  {
    hide Start, UnionOrder, Turn, ActNow, Ready, PassAt, LoneSide, Visible, HandledRight, DirsRemain,
      NamesRemainFree, RowsRemain, ConflictsRemain, Tree, At;
    SettlingParts(cfg, env, s0, order, i, x);
    TurnAt(cfg, env, s0, order, i);
    var p, handled := order[i], PassAt(cfg, env, s0, order, i).handled;
    if UnderAny(x, handled) {
      var h :| h in handled && Under(x, h);
      HandledIsDone(s0, order[..i], handled, h);
      AboveComparable(x, p, h);
      assert false;
    }
    assert Pending(cfg, order[..i], handled, x);
  }

  lemma HandledIsDone(s0: State, done: seq<Path>, handled: seq<Path>, h: Path)
    requires HandledRight(s0, done, handled) && h in handled
    ensures h in done
  {
    hide LoneSide, ClashAt;
  }

  /** What the turn of the directory leaves at a path below it. */
  lemma SettledTurn(cfg: Config, env: Env, s0: State, order: seq<Path>, i: nat, x: Path)
    requires Settling(cfg, env, s0, order, i, x)
    ensures var t, from := PassAt(cfg, env, s0, order, i + 1).state, s0.Of(LoneSide(s0, order[i]).value).disk;
      && (Dropped(cfg, s0, order, i) ==> x !in t.a.disk && x !in t.b.disk)
      && (!Dropped(cfg, s0, order, i) ==>
            && At(t.a.disk, x) == At(t.b.disk, x) == At(from, x)
            && (x in from ==> Sync.Find(t.a.rows, x) == Sync.Find(t.b.rows, x) == Some(EntryFor(cfg, from[x]))))
  {
    hide Start, UnionOrder, PassInv, Next, Frame, ActNow, Ready, PassAt, UnderAny, Grown, EntryFor, Dropped,
      MeansDeleted, BothDirs, RowsElsewhereKept, Visible;
    SettlingParts(cfg, env, s0, order, i, x);
    TurnAt(cfg, env, s0, order, i);
    DroppedAtTurn(cfg, env, s0, order, i);
    StillThere(cfg, env, s0, order, i, x);
    var s, p := PassAt(cfg, env, s0, order, i).state, order[i];
    LoneTurnIs(cfg, env, s0, s, p);
    LoneDirReconciled(cfg, env, s, LoneSide(s0, p).value, p);
  }

  lemma LoneTurnIs(cfg: Config, env: Env, s0: State, s: State, p: Path)
    requires At(s.a.disk, p) == At(s0.a.disk, p) && At(s.b.disk, p) == At(s0.b.disk, p) && LoneSide(s0, p).Some?
    ensures var src := LoneSide(s0, p).value;
      && LoneSide(s, p) == Some(src) && (Removes(cfg, s, p) <==> MeansDeleted(cfg, s, src, p))
      && ActNow(cfg, env, s, p).outcome == ReconcileOneSided(cfg, env, s, src, p, true)
  {
    hide ReconcileOneSided, MeansDeleted;
  }

  /** Below a directory whose turn dropped it there is nothing, to the end; below a copied one, what was copied. */
  lemma {:induction false} DisksLast(cfg: Config, env: Env, s0: State, order: seq<Path>, i: nat, n: nat, x: Path)
    requires Settling(cfg, env, s0, order, i, x) && i < n <= |order|
    ensures var s, t := PassAt(cfg, env, s0, order, i + 1).state, PassAt(cfg, env, s0, order, n).state;
      At(t.a.disk, x) == At(s.a.disk, x) && At(t.b.disk, x) == At(s.b.disk, x)
    decreases n
  {
    hide Settling, PassAt, UnderAny, ActNow, Ready, At;
    if n > i + 1 {
      DisksLast(cfg, env, s0, order, i, n - 1, x);
      LaterTurnBelow(cfg, env, s0, order, i, n - 1, x);
    }
  }

  /** The directory at order[i] is copied, and x below it is a file or link. */
  ghost predicate CopiedBelow(cfg: Config, s0: State, order: seq<Path>, i: nat, x: Path)
    requires i < |order|
  {
    && LoneSide(s0, order[i]).Some? && Under(x, order[i]) && Placed(s0, order[i]) && !Dropped(cfg, s0, order, i)
    && x in s0.Of(LoneSide(s0, order[i]).value).disk && Carries(s0.Of(LoneSide(s0, order[i]).value).disk[x])
  }

  ghost function CopiedNode(s0: State, order: seq<Path>, i: nat, x: Path): Node
    requires i < |order| && LoneSide(s0, order[i]).Some? && x in s0.Of(LoneSide(s0, order[i]).value).disk
  {
    s0.Of(LoneSide(s0, order[i]).value).disk[x]
  }

  lemma CopiedHasNode(cfg: Config, s0: State, order: seq<Path>, i: nat, x: Path)
    requires i < |order| && CopiedBelow(cfg, s0, order, i, x)
    ensures LoneSide(s0, order[i]).Some? && x in s0.Of(LoneSide(s0, order[i]).value).disk
  {
  }

  lemma CopiedRecord(cfg: Config, env: Env, s0: State, order: seq<Path>, i: nat, x: Path)
    requires Settling(cfg, env, s0, order, i, x) && i < |order| && CopiedBelow(cfg, s0, order, i, x)
    ensures var t := PassAt(cfg, env, s0, order, i + 1).state;
      Sync.Find(t.a.rows, x) == Sync.Find(t.b.rows, x) == Some(EntryFor(cfg, CopiedNode(s0, order, i, x)))
  {
    hide Settling, PassAt, Dropped, EntryFor, LoneSide, Placed;
    SettledTurn(cfg, env, s0, order, i, x);
  }

  /** The rows of x in the pass itself. */
  lemma {:induction false} StaleRecord(cfg: Config, env: Env, s0: State, order: seq<Path>, i: nat, n: nat, x: Path)
    requires Settling(cfg, env, s0, order, i, x) && i < n <= |order| && CopiedBelow(cfg, s0, order, i, x)
    ensures RecordLasts(cfg, s0, order, i + 1, n, PassAt(cfg, env, s0, order, n).state, x, CopiedNode(s0, order, i, x))
    decreases n
  {
    hide Settling, PassAt, UnderAny, ActNow, Ready, RecordLasts, Dropped, Removes, EntryFor, CopiedBelow, CopiedNode,
      Start, UnionOrder, Visible, LoneSide, AtOrUnder;
    CopiedHasNode(cfg, s0, order, i, x);
    var node := CopiedNode(s0, order, i, x);
    if n == i + 1 {
      CopiedRecord(cfg, env, s0, order, i, x);
      RecordFirst(cfg, s0, order, n, PassAt(cfg, env, s0, order, n).state, x, node);
    } else {
      StaleRecord(cfg, env, s0, order, i, n - 1, x);
      SettlingParts(cfg, env, s0, order, i, x);
      LaterTurnBelow(cfg, env, s0, order, i, n - 1, x);
      DroppedAtTurn(cfg, env, s0, order, n - 1);
      var pass := PassAt(cfg, env, s0, order, n - 1);
      if UnderAny(order[n - 1], pass.handled) {
        RecordIdle(cfg, s0, order, i + 1, n - 1, pass.state, pass.state, x, node);
      } else {
        RecordThrough(cfg, env, s0, order, i + 1, n - 1, pass.state, x, node);
      }
    }
  }

  // ------------------------------------------------------- the pass that looks again

  lemma ReadyAlike(cfg: Config, env: Env, s: State, t: State, p: Path)
    requires Ready(cfg, env, s, p) && SameButRows(s, t)
    ensures Ready(cfg, env, t, p)
  {
    hide Visible, NamesFree, WalkFaithful, Tree, HasParents;
  }

  lemma RemovesAlike(cfg: Config, s: State, t: State, p: Path)
    requires AlikeAt(s, t, p)
    ensures Removes(cfg, s, p) <==> Removes(cfg, t, p)
  {
    assert RowsAgreeAt(s, t, p);
  }

  /** The turn at x: the pass skips it, and the one that looks again records what is there. */
  lemma LookedAgain(cfg: Config, env: Env, s0: State, order: seq<Path>, i: nat, m: nat)
    requires i < m < |order| && Settling(cfg, env, s0, order, i, order[m]) && CopiedBelow(cfg, s0, order, i, order[m])
    ensures RecordLasts(cfg, s0, order, m + 1, m + 1, LiveAt(cfg, env, s0, order, m + 1).state, order[m],
              CopiedNode(s0, order, i, order[m]))
  {
    hide Start, UnionOrder, Settling, PassAt, LiveAt, UnderAny, ActNow, Ready, RecordLasts, Dropped, EntryFor,
      FreshStep, InStep, PassInv, Next, Turn, BelowLone, HandledRight, LoneSide;
    var x := order[m];
    SettlingParts(cfg, env, s0, order, i, x);
    InStepHolds(cfg, env, s0, order, m);
    TurnAt(cfg, env, s0, order, m);
    StaysHandled(cfg, env, s0, order, i, m, x);
    HandledFact(cfg, env, s0, order[..m], PassAt(cfg, env, s0, order, m));
    NotBelowClash(cfg, s0, order[..m], PassAt(cfg, env, s0, order, m), LiveAt(cfg, env, s0, order, m), order[i], x);
    FreshInOrder(cfg, s0, order, m);
    SettledTurn(cfg, env, s0, order, i, x);
    DisksLast(cfg, env, s0, order, i, m, x);
    SkippedBelowLone(cfg, env, s0, order[..m], PassAt(cfg, env, s0, order, m), LiveAt(cfg, env, s0, order, m), x);
    StepFacts(cfg, s0, order[..m] + [x], PassAt(cfg, env, s0, order, m), FreshStep(cfg, env, LiveAt(cfg, env, s0,
      order, m), x));
    LiveAtStep(cfg, env, s0, order, m);
    AfterLook(cfg, env, s0, order[..m], PassAt(cfg, env, s0, order, m), LiveAt(cfg, env, s0, order, m), x);
    RecordFirst(cfg, s0, order, m + 1, LiveAt(cfg, env, s0, order, m + 1).state, x, CopiedNode(s0, order, i, x));
  }

  lemma NotBelowClash(cfg: Config, s0: State, done: seq<Path>, stale: Pass, live: Pass, h: Path, x: Path)
    requires InStep(cfg, s0, done, stale, live) && HandledRight(s0, done, stale.handled)
    requires h in stale.handled && LoneSide(s0, h).Some? && Under(x, h)
    ensures !UnderAny(x, live.handled)
  {
    hide RowsInStep, EqualBelow, SameButRows;
    forall c | c in live.handled ensures !Under(x, c) {
      assert c in stale.handled && ClashAt(s0, c);
      if Under(x, c) { AboveComparable(x, c, h); }
    }
  }

  lemma AfterLook(cfg: Config, env: Env, s0: State, done: seq<Path>, stale: Pass, live: Pass, x: Path)
    requires InStep(cfg, s0, done, stale, live) && x in stale.state.a.disk
    requires PairRecorded(cfg, FreshStep(cfg, env, live, x).state, x)
    requires SameButRows(stale.state, FreshStep(cfg, env, live, x).state)
    ensures var t := FreshStep(cfg, env, live, x).state;
      Sync.Find(t.a.rows, x) == Sync.Find(t.b.rows, x) == Some(EntryFor(cfg, stale.state.a.disk[x]))
  {
    hide InStep, FreshStep, EntryFor;
  }

  /** A later turn of the pass that looks again. */
  lemma LiveStep(cfg: Config, env: Env, s0: State, order: seq<Path>, i: nat, lo: nat, n: nat, x: Path, node: Node)
    requires Settling(cfg, env, s0, order, i, x) && i < lo <= n < |order| && order[n] != x
    requires RecordLasts(cfg, s0, order, lo, n, LiveAt(cfg, env, s0, order, n).state, x, node)
    ensures RecordLasts(cfg, s0, order, lo, n + 1, LiveAt(cfg, env, s0, order, n + 1).state, x, node)
  {
    hide Start, UnionOrder, Settling, PassAt, LiveAt, UnderAny, ActNow, Ready, RecordLasts, Dropped, EntryFor,
      FreshStep, InStep, PassInv, Next, Turn, BelowLone, HandledRight, Grown, Removes, AtOrUnder, AlikeAt;
    SettlingParts(cfg, env, s0, order, i, x);
    InStepHolds(cfg, env, s0, order, n);
    TurnAt(cfg, env, s0, order, n);
    DroppedAtTurn(cfg, env, s0, order, n);
    LaterTurnBelow(cfg, env, s0, order, i, n, x);
    LiveAtStep(cfg, env, s0, order, n);
    var stale, live, q := PassAt(cfg, env, s0, order, n), LiveAt(cfg, env, s0, order, n), order[n];
    if !UnderAny(q, stale.handled) {
      LiveTakes(cfg, env, s0, order, n);
      RemovesAlike(cfg, stale.state, live.state, q);
      RecordThrough(cfg, env, s0, order, lo, n, live.state, x, node);
    } else {
      LiveIdles(cfg, env, s0, order, n, x);
      RecordIdle(cfg, s0, order, lo, n, live.state, LiveAt(cfg, env, s0, order, n + 1).state, x, node);
    }
  }

  lemma LiveTakes(cfg: Config, env: Env, s0: State, order: seq<Path>, n: nat)
    requires Start(cfg, env, s0) && UnionOrder(cfg, s0, order) && n < |order|
    requires !UnderAny(order[n], PassAt(cfg, env, s0, order, n).handled)
    ensures var stale, live, q := PassAt(cfg, env, s0, order, n), LiveAt(cfg, env, s0, order, n), order[n];
      && AlikeAt(stale.state, live.state, q) && Ready(cfg, env, live.state, q)
      && LiveAt(cfg, env, s0, order, n + 1).state == ActNow(cfg, env, live.state, q).outcome.state
  {
    hide UnionOrder, PassAt, LiveAt, UnderAny, ActNow, Ready, FreshStep, InStep, PassInv, Next, Turn, AlikeAt,
      WalkFaithful, Tree, NoSpecialInTheWay, NamesFree, Visible;
    InStepHolds(cfg, env, s0, order, n);
    TurnAt(cfg, env, s0, order, n);
    LiveAtStep(cfg, env, s0, order, n);
    var stale, live, q := PassAt(cfg, env, s0, order, n), LiveAt(cfg, env, s0, order, n), order[n];
    BothTake(cfg, env, s0, order[..n], stale, live, PassAt(cfg, env, s0, order, n + 1), q);
    StepFacts(cfg, s0, order[..n], stale, live);
    ReadyAlike(cfg, env, stale.state, live.state, q);
  }

  lemma LiveIdles(cfg: Config, env: Env, s0: State, order: seq<Path>, n: nat, x: Path)
    requires Start(cfg, env, s0) && UnionOrder(cfg, s0, order) && n < |order| && order[n] != x
    requires UnderAny(order[n], PassAt(cfg, env, s0, order, n).handled)
    ensures RowsAgreeAt(LiveAt(cfg, env, s0, order, n).state, LiveAt(cfg, env, s0, order, n + 1).state, x)
  {
    hide Start, UnionOrder, PassAt, LiveAt, UnderAny, ActNow, Ready, InStep, PassInv, Turn, Visible, BelowLone,
      HandledRight, SameClashes, RowsInStep;
    InStepHolds(cfg, env, s0, order, n);
    TurnAt(cfg, env, s0, order, n);
    LiveAtStep(cfg, env, s0, order, n);
    var stale, live, q := PassAt(cfg, env, s0, order, n), LiveAt(cfg, env, s0, order, n), order[n];
    HandledFact(cfg, env, s0, order[..n], stale);
    StepFacts(cfg, s0, order[..n], stale, live);
    SettledEitherWay(s0, order[..n], stale.handled, live.handled, q);
    if !UnderAny(q, live.handled) {
      SkippedBelowLone(cfg, env, s0, order[..n], stale, live, q);
    }
  }

  lemma {:induction false} LiveRecord(cfg: Config, env: Env, s0: State, order: seq<Path>, i: nat, m: nat, n: nat)
    requires i < m < n <= |order| && Settling(cfg, env, s0, order, i, order[m])
    requires CopiedBelow(cfg, s0, order, i, order[m])
    ensures RecordLasts(cfg, s0, order, m + 1, n, LiveAt(cfg, env, s0, order, n).state, order[m],
              CopiedNode(s0, order, i, order[m]))
    decreases n
  {
    hide Settling, LiveAt, RecordLasts, CopiedBelow, UnionOrder, Start, LoneSide, CopiedNode, Visible, SavedExcluded;
    CopiedHasNode(cfg, s0, order, i, order[m]);
    if n == m + 1 {
      LookedAgain(cfg, env, s0, order, i, m);
    } else {
      LiveRecord(cfg, env, s0, order, i, m, n - 1);
      SettlingParts(cfg, env, s0, order, i, order[m]);
      FreshInOrder(cfg, s0, order, n - 1);
      LiveStep(cfg, env, s0, order, i, m + 1, n - 1, order[m], CopiedNode(s0, order, i, order[m]));
    }
  }

  // ------------------------------------------------------------------ the two passes

  /**
   * The record of x is lost to the pass and found by one that looks again: x is a file or link below a
   * directory that is copied, a turn between that copy and the turn of x removes a path covering x by
   * letter case, and no turn after that of x does.
   */
  ghost predicate LosesRecord(cfg: Config, s0: State, order: seq<Path>, x: Path) {
    exists i: nat, m: nat :: i < m < |order| && order[m] == x && CopiedBelow(cfg, s0, order, i, x)
      && RemovedIn(cfg, s0, order, i + 1, m, x) && !RemovedIn(cfg, s0, order, m + 1, |order|, x)
  }

  lemma PlacedSettles(cfg: Config, env: Env, s0: State, order: seq<Path>, i: nat, m: nat)
    requires Start(cfg, env, s0) && UnionOrder(cfg, s0, order)
    requires i < m < |order| && CopiedBelow(cfg, s0, order, i, order[m])
    ensures Settling(cfg, env, s0, order, i, order[m])
  {
    hide Start, UnionOrder, PassInv, Turn, ActNow, Ready, PassAt, UnderAny, Placed, Dropped, LoneSide, Visible;
    TurnAt(cfg, env, s0, order, i);
    TurnAt(cfg, env, s0, order, m);
    var pass := PassAt(cfg, env, s0, order, i);
    HandledFact(cfg, env, s0, order[..i], pass);
    if UnderAny(order[i], pass.handled) { SkippedIsNotPlaced(s0, order[..i], pass.handled, order[i]); }
  }

  lemma RemovedSplits(cfg: Config, s0: State, order: seq<Path>, i: nat, m: nat)
    requires i < m < |order|
    ensures RemovedIn(cfg, s0, order, i + 1, |order|, order[m]) <==>
      RemovedIn(cfg, s0, order, i + 1, m, order[m]) || RemovedIn(cfg, s0, order, m + 1, |order|, order[m])
  {
    hide Dropped;
    assert !CaseUnder(order[m], order[m]);
  }

  /** One table has nothing for x on either side, the other has a row for both. */
  predicate LostAndFound(s: State, t: State, x: Path) {
    x !in s.a.rows && x !in s.b.rows && x in t.a.rows && x in t.b.rows
  }

  /** Below a copied directory: exactly when the two tables differ. */
  lemma DifferBelow(cfg: Config, env: Env, s0: State, order: seq<Path>, i: nat, m: nat)
    requires Start(cfg, env, s0) && UnionOrder(cfg, s0, order)
    requires i < m < |order| && CopiedBelow(cfg, s0, order, i, order[m])
    ensures RowsAgreeAt(Reconcile(cfg, env, s0, order), FreshPass(cfg, env, s0, order).state, order[m]) <==>
      !(RemovedIn(cfg, s0, order, i + 1, m, order[m]) && !RemovedIn(cfg, s0, order, m + 1, |order|, order[m]))
    ensures RemovedIn(cfg, s0, order, i + 1, m, order[m]) && !RemovedIn(cfg, s0, order, m + 1, |order|, order[m]) ==>
      LostAndFound(Reconcile(cfg, env, s0, order), FreshPass(cfg, env, s0, order).state, order[m])
  {
    hide Start, UnionOrder, PassAt, Reconcile, FreshPass, Settling, CopiedBelow, RemovedIn, EntryFor;
    var n := |order|;
    PlacedSettles(cfg, env, s0, order, i, m);
    CopiedHasNode(cfg, s0, order, i, order[m]);
    StaleRecord(cfg, env, s0, order, i, n, order[m]);
    LiveRecord(cfg, env, s0, order, i, m, n);
    PassAtEnd(cfg, env, s0, order);
    assert order[..n] == order;
    RemovedSplits(cfg, s0, order, i, m);
  }

  lemma NoneHandledAtFirst(cfg: Config, env: Env, s0: State, order: seq<Path>)
    ensures PassAt(cfg, env, s0, order, 0).handled == []
  {
    hide Take;
  }

  lemma {:induction false} HandledTookTurn(cfg: Config, env: Env, s0: State, order: seq<Path>, n: nat, h: Path)
    returns (i: nat)
    requires Start(cfg, env, s0) && UnionOrder(cfg, s0, order) && n <= |order|
    requires h in PassAt(cfg, env, s0, order, n).handled
    ensures i < n && order[i] == h && !UnderAny(h, PassAt(cfg, env, s0, order, i).handled)
    decreases n
  {
    hide Start, UnionOrder, PassInv, Next, Turn, ActNow, Ready, UnderAny, LoneSide, PassAt;
    NoneHandledAtFirst(cfg, env, s0, order);
    TurnAt(cfg, env, s0, order, n - 1);
    if h in PassAt(cfg, env, s0, order, n - 1).handled {
      i := HandledTookTurn(cfg, env, s0, order, n - 1, h);
    } else {
      i := n - 1;
    }
  }

  /** A path only the second pass looked at again was copied with a directory above it. */
  lemma LookedAtIsCopied(cfg: Config, env: Env, s0: State, order: seq<Path>, x: Path) returns (i: nat, m: nat)
    requires Start(cfg, env, s0) && UnionOrder(cfg, s0, order)
    requires LookedAtAgain(s0, order, PassAt(cfg, env, s0, order, |order|), x)
    ensures i < m < |order| && order[m] == x && CopiedBelow(cfg, s0, order, i, x)
  {
    hide Start, TopDown, NoDuplicates, PassAt, UnderAny, Dropped, LoneSide, ClashAt, Placed, EntryFor;
    var pass := PassAt(cfg, env, s0, order, |order|);
    var h :| h in pass.handled && LoneSide(s0, h).Some? && Under(x, h);
    i := HandledTookTurn(cfg, env, s0, order, |order|, h);
    m :| 0 <= m < |order| && order[m] == x;
    AboveComesFirst(cfg, s0, order, i, m);
    TookTurnIsPlaced(cfg, env, s0, order, i);
    InOrderIsVisible(cfg, env, s0, order, m);
    assert Settling(cfg, env, s0, order, i, x);
    hide Settling;
    SettledTurn(cfg, env, s0, order, i, x);
    DisksLast(cfg, env, s0, order, i, |order|, x);
  }

  lemma AboveComesFirst(cfg: Config, s0: State, order: seq<Path>, i: nat, m: nat)
    requires UnionOrder(cfg, s0, order) && i < |order| && m < |order| && Under(order[m], order[i])
    ensures i < m
  {
  }

  lemma TookTurnIsPlaced(cfg: Config, env: Env, s0: State, order: seq<Path>, i: nat)
    requires Start(cfg, env, s0) && UnionOrder(cfg, s0, order) && i < |order|
    requires !UnderAny(order[i], PassAt(cfg, env, s0, order, i).handled)
    ensures Placed(s0, order[i])
  {
    hide Start, UnionOrder, PassInv, Next, Turn, ActNow, Ready, PassAt, UnderAny, Placed;
    TurnAt(cfg, env, s0, order, i);
    TurnIsPlaced(cfg, env, s0, order[..i], PassAt(cfg, env, s0, order, i), order[i]);
  }

  lemma InOrderIsVisible(cfg: Config, env: Env, s0: State, order: seq<Path>, m: nat)
    requires Start(cfg, env, s0) && UnionOrder(cfg, s0, order) && m < |order|
    ensures Visible(cfg, order[m])
  {
    hide Start, UnionOrder, PassInv, Turn, ActNow, Ready, PassAt, UnderAny, Visible;
    TurnAt(cfg, env, s0, order, m);
  }

  /**
   * Deciding from an inventory and hashes taken before the first action, and skipping what a settled
   * directory covers, ends with the same disks and the same conflict list as looking again just before
   * each action. The tables hold the same rows for x as well, except exactly where LosesRecord says:
   * there the pass ends without a row for x, and the one that looks again with one for each side.
   */
  lemma StaleInventoryIsHarmless(cfg: Config, env: Env, s0: State, order: seq<Path>, x: Path)
    requires Start(cfg, env, s0) && UnionOrder(cfg, s0, order)
    ensures var stale, live := Reconcile(cfg, env, s0, order), FreshPass(cfg, env, s0, order).state;
      && SameButRows(stale, live)
      && (RowsAgreeAt(stale, live, x) <==> !LosesRecord(cfg, s0, order, x))
      && (LosesRecord(cfg, s0, order, x) ==> LostAndFound(stale, live, x))
  {
    hide Start, UnionOrder, PassAt, Reconcile, FreshPass, CopiedBelow, RemovedIn, RowsAgreeAt, LookedAtAgain;
    var n := |order|;
    InStepHolds(cfg, env, s0, order, n);
    PassAtEnd(cfg, env, s0, order);
    assert order[..n] == order;
    if LosesRecord(cfg, s0, order, x) {
      var i: nat, m: nat :| i < m < |order| && order[m] == x && CopiedBelow(cfg, s0, order, i, x)
        && RemovedIn(cfg, s0, order, i + 1, m, x) && !RemovedIn(cfg, s0, order, m + 1, |order|, x);
      DifferBelow(cfg, env, s0, order, i, m);
    } else if LookedAtAgain(s0, order, PassAt(cfg, env, s0, order, n), x) {
      var i, m := LookedAtIsCopied(cfg, env, s0, order, x);
      DifferBelow(cfg, env, s0, order, i, m);
    }
  }

  lemma RowsSame(r: Rows, r': Rows)
    requires forall x :: Sync.Find(r, x) == Sync.Find(r', x)
    ensures r == r'
  {
    assert forall x :: (x in r <==> x in r') && (x in r ==> r[x] == r'[x]) by {
      forall x ensures (x in r <==> x in r') && (x in r ==> r[x] == r'[x]) {
        assert Sync.Find(r, x) == Sync.Find(r', x);
      }
    }
  }

  /** The two passes end in one and the same state exactly when no record is lost. */
  lemma SameEndExactly(cfg: Config, env: Env, s0: State, order: seq<Path>)
    requires Start(cfg, env, s0) && UnionOrder(cfg, s0, order)
    ensures Reconcile(cfg, env, s0, order) == FreshPass(cfg, env, s0, order).state <==>
      forall x :: !LosesRecord(cfg, s0, order, x)
  {
    hide Start, UnionOrder, Reconcile, FreshPass, LosesRecord;
    var stale, live := Reconcile(cfg, env, s0, order), FreshPass(cfg, env, s0, order).state;
    forall x ensures SameButRows(stale, live) && (RowsAgreeAt(stale, live, x) <==> !LosesRecord(cfg, s0, order, x)) {
      StaleInventoryIsHarmless(cfg, env, s0, order, x);
    }
    StaleInventoryIsHarmless(cfg, env, s0, order, "");
    if forall x :: !LosesRecord(cfg, s0, order, x) {
      forall x ensures Sync.Find(stale.a.rows, x) == Sync.Find(live.a.rows, x)
        && Sync.Find(stale.b.rows, x) == Sync.Find(live.b.rows, x)
      {
        assert RowsAgreeAt(stale, live, x);
      }
      RowsSame(stale.a.rows, live.a.rows);
      RowsSame(stale.b.rows, live.b.rows);
    }
  }
}
