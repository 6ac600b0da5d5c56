// What a whole reconciliation pass achieves (internal/engine/resync.go), for every pair of trees,
// every table and every order of the paths in which directories come before their contents.

module Reconciled {
  import opened Actions
  import opened Digests
  import opened Disks
  import opened Exclude
  import opened Frames
  import opened Names
  import opened Nodes
  import opened Passes
  import opened Paths
  import opened Settings
  import opened Sync

  /** The pass before turn n. */
  function PassAt(cfg: Config, env: Env, s0: State, order: seq<Path>, n: nat): Pass
    requires n <= |order|
  {
    StalePass(cfg, env, Take(cfg, s0), s0, order[..n])
  }

  lemma PassAtStep(cfg: Config, env: Env, s0: State, order: seq<Path>, n: nat)
    requires n < |order|
    ensures PassAt(cfg, env, s0, order, n + 1) == StaleStep(cfg, env, Take(cfg, s0), PassAt(cfg, env, s0, order, n),
      order[n])
  {
    hide StaleStep, Take;
    assert order[..n + 1][..n] == order[..n];
  }

  lemma PassAtEnd(cfg: Config, env: Env, s0: State, order: seq<Path>)
    ensures PassAt(cfg, env, s0, order, |order|).state == Reconcile(cfg, env, s0, order)
  {
    hide StalePass, Take;
    assert order[..|order|] == order;
  }

  /** All that turn n is known to do. */
  lemma TurnAt(cfg: Config, env: Env, s0: State, order: seq<Path>, n: nat)
    requires Start(cfg, env, s0) && UnionOrder(cfg, s0, order) && n < |order|
    ensures var pass, after, p := PassAt(cfg, env, s0, order, n), PassAt(cfg, env, s0, order, n + 1), order[n];
      && PassInv(cfg, env, s0, order[..n], pass) && Next(cfg, s0, order[..n], p)
      && (UnderAny(p, pass.handled) ==> after == pass)
      && (!UnderAny(p, pass.handled) ==>
            && Turn(cfg, env, s0, pass.state, after.state, p, LoneSide(s0, p).Some?)
            && after.handled == Grown(s0, pass.handled, p)
            && after.state == ActNow(cfg, env, pass.state, p).outcome.state
            && Ready(cfg, env, pass.state, p))
  {
    hide Start, UnionOrder, PassInv, Next, Turn, Take, Act, ActNow, Ready, UnderAny, Grown, LoneSide;
    PassInvHolds(cfg, env, s0, order, n);
    NextInOrder(cfg, env, s0, order, n);
    PassAtStep(cfg, env, s0, order, n);
    var pass := PassAt(cfg, env, s0, order, n);
    if !UnderAny(order[n], pass.handled) {
      TurnTaken(cfg, env, s0, order[..n], pass, order[n]);
    }
  }

  /** A turn leaves a visible path alone unless it is the path of the turn or lies below a lone directory there. */
  lemma KeptByTurn(cfg: Config, env: Env, s0: State, s: State, t: State, p: Path, x: Path)
    requires SavedExcluded(cfg) && Visible(cfg, p) && Visible(cfg, x)
    requires Turn(cfg, env, s0, s, t, p, LoneSide(s0, p).Some?)
    requires x != p && (LoneSide(s0, p).Some? ==> !Under(x, p))
    ensures At(t.a.disk, x) == At(s.a.disk, x) && At(t.b.disk, x) == At(s.b.disk, x)
  {
    hide Saves, Excluded, Clean, Tree, RowsKept, ConflictsKept, LoneSide, RowsElsewhereKept, BothDirs;
    VisibleIsNotSaved(cfg, p, x, env.clock(p));
  }

  // ----------------------------------------------------------------- convergence

  /** No special file at x, and no directory facing a file at or above x. */
  ghost predicate Clear(s: State, x: Path) {
    !SpecialAt(s, x) && forall q :: AtOrUnder(x, q) ==> !ClashAt(s, q)
  }

  ghost predicate SettledAgree(cfg: Config, s0: State, s: State, done: seq<Path>, handled: seq<Path>) {
    forall x :: Visible(cfg, x) && (x in done || UnderAny(x, handled)) && Clear(s0, x) ==> AgreeAt(s, x)
  }

  lemma SettledStep(cfg: Config, env: Env, s0: State, done: seq<Path>, pass: Pass, t: State, p: Path)
    requires Start(cfg, env, s0) && PassInv(cfg, env, s0, done, pass)
    requires Next(cfg, s0, done, p) && !UnderAny(p, pass.handled)
    requires Turn(cfg, env, s0, pass.state, t, p, LoneSide(s0, p).Some?)
    requires Ready(cfg, env, pass.state, p) && t == ActNow(cfg, env, pass.state, p).outcome.state
    requires cfg.hashMax <= 0 && cfg.conflict != Manual
    requires SettledAgree(cfg, s0, pass.state, done, pass.handled)
    ensures SettledAgree(cfg, s0, t, done + [p], Grown(s0, pass.handled, p))
  {
    hide Visible, ActNow, AgreeNodes, Tree, NamesFree, WalkFaithful, NoSpecialInTheWay, Frame, BothDirs,
      HasParents, SpecialAt, NamesRemainFree, RowsRemain, ConflictsRemain, DirsRemain, PendingUntouched,
      HandledRight, RowsElsewhereKept, UnderAny;
    var grown := Grown(s0, pass.handled, p);
    forall x | Visible(cfg, x) && (x in done + [p] || UnderAny(x, grown)) && Clear(s0, x) ensures AgreeAt(t, x) {
      UnderAnyStep(x, pass.handled, p);
      if x == p {
        ClearNow(s0, pass.state, p);
        TurnAgrees(cfg, env, pass.state, p);
      } else if Under(x, p) && LoneSide(s0, p).Some? {
        ClearNow(s0, pass.state, p);
        TurnIsOk(cfg, env, pass.state, p);
        TurnAgrees(cfg, env, pass.state, p);
        SameNodesAgree(t, x);
      } else {
        assert Under(x, p) ==> !ClashAt(s0, p);
        KeptByTurn(cfg, env, s0, pass.state, t, p, x);
      }
    }
  }

  lemma ClearNow(s0: State, s: State, p: Path)
    requires At(s.a.disk, p) == At(s0.a.disk, p) && At(s.b.disk, p) == At(s0.b.disk, p)
    requires Clear(s0, p) || LoneSide(s0, p).Some?
    ensures !SpecialAt(s, p) && !ClashAt(s, p)
    ensures LoneSide(s, p) == LoneSide(s0, p)
  {
    assert AtOrUnder(p, p);
  }

  lemma {:induction false} SettledHolds(cfg: Config, env: Env, s0: State, order: seq<Path>, n: nat)
    requires Start(cfg, env, s0) && UnionOrder(cfg, s0, order) && n <= |order|
    requires cfg.hashMax <= 0 && cfg.conflict != Manual
    ensures var pass := PassAt(cfg, env, s0, order, n); SettledAgree(cfg, s0, pass.state, order[..n], pass.handled)
  {
    hide Start, UnionOrder, PassInv, Next, Turn, ActNow, Ready, StaleStep, Take, Clear, AgreeAt, Visible,
      Grown, LoneSide;
    if n > 0 {
      SettledHolds(cfg, env, s0, order, n - 1);
      TurnAt(cfg, env, s0, order, n - 1);
      var pass, p := PassAt(cfg, env, s0, order, n - 1), order[n - 1];
      assert order[..n] == order[..n - 1] + [p];
      if !UnderAny(p, pass.handled) {
        SettledStep(cfg, env, s0, order[..n - 1], pass, PassAt(cfg, env, s0, order, n).state, p);
      }
    }
  }

  lemma AbsentAgree(cfg: Config, s0: State, order: seq<Path>, pass: Pass, x: Path)
    requires UnionOrder(cfg, s0, order) && PendingUntouched(cfg, s0, pass.state, order, pass.handled)
    requires Visible(cfg, x) && x !in order && !UnderAny(x, pass.handled)
    ensures AgreeAt(pass.state, x)
  {
    hide Clean, UnderAny, AgreeNodes;
    assert Pending(cfg, order, pass.handled, x);
  }

  /**
   * Convergence. With full digests and a policy that acts, one pass leaves the two sides agreeing at
   * every visible path that holds no special file and has no type clash at or above it: on presence,
   * kind and content, and for files on permissions and, within a second, mtime.
   */
  lemma Converges(cfg: Config, env: Env, s0: State, order: seq<Path>, x: Path)
    requires Start(cfg, env, s0) && UnionOrder(cfg, s0, order)
    requires cfg.hashMax <= 0 && cfg.conflict != Manual
    requires Visible(cfg, x) && Clear(s0, x)
    ensures AgreeAt(Reconcile(cfg, env, s0, order), x)
  {
    hide Start, Clear, Visible, StalePass, Take, NoDuplicates, TopDown, LoneSide, ClashAt, HandledRight,
      DirsRemain, NamesRemainFree, RowsRemain, ConflictsRemain, Tree, UnderAny, AgreeNodes;
    var n := |order|;
    SettledHolds(cfg, env, s0, order, n);
    PassInvHolds(cfg, env, s0, order, n);
    PassAtEnd(cfg, env, s0, order);
    assert order[..n] == order;
    var pass := PassAt(cfg, env, s0, order, n);
    if !(x in order || UnderAny(x, pass.handled)) {
      AbsentAgree(cfg, s0, order, pass, x);
    }
  }

  // ------------------------------------------------- what a pass leaves as it was

  /** The turn at p cannot write x. */
  predicate OutOfReach(env: Env, s0: State, p: Path, x: Path) {
    x != p && (LoneSide(s0, p).Some? ==> !Under(x, p)) && !Saves(x, p, env.clock(p))
  }

  lemma KeptOutOfReach(env: Env, s0: State, cfg: Config, s: State, t: State, p: Path, x: Path)
    requires Turn(cfg, env, s0, s, t, p, LoneSide(s0, p).Some?) && OutOfReach(env, s0, p, x)
    ensures At(t.a.disk, x) == At(s.a.disk, x) && At(t.b.disk, x) == At(s.b.disk, x)
  {
    hide Saves, Tree, RowsKept, ConflictsKept, LoneSide, RowsElsewhereKept, BothDirs;
  }

  lemma {:induction false} KeptFrom(cfg: Config, env: Env, s0: State, order: seq<Path>, n: nat, m: nat, x: Path)
    requires Start(cfg, env, s0) && UnionOrder(cfg, s0, order) && n <= m <= |order|
    requires forall j :: n <= j < m ==> OutOfReach(env, s0, order[j], x)
    ensures var s, t := PassAt(cfg, env, s0, order, n).state, PassAt(cfg, env, s0, order, m).state;
      At(t.a.disk, x) == At(s.a.disk, x) && At(t.b.disk, x) == At(s.b.disk, x)
    decreases m - n
  {
    hide Start, UnionOrder, PassInv, Next, Turn, ActNow, Ready, PassAt, OutOfReach, UnderAny, Grown,
      LoneSide, At;
    if n < m {
      KeptFrom(cfg, env, s0, order, n, m - 1, x);
      TurnAt(cfg, env, s0, order, m - 1);
      var pass := PassAt(cfg, env, s0, order, m - 1);
      if !UnderAny(order[m - 1], pass.handled) {
        KeptOutOfReach(env, s0, cfg, pass.state, PassAt(cfg, env, s0, order, m).state, order[m - 1], x);
      }
    }
  }

  lemma ClashTurn(cfg: Config, env: Env, s: State, p: Path)
    requires ClashAt(s, p)
    ensures var t := ActNow(cfg, env, s, p).outcome.state; t.a == s.a && t.b == s.b
  {
  }

  lemma ClashBarsTurn(cfg: Config, env: Env, s0: State, done: seq<Path>, pass: Pass, p: Path, q: Path, x: Path)
    requires Start(cfg, env, s0) && PassInv(cfg, env, s0, done, pass)
    requires Next(cfg, s0, done, p) && !UnderAny(p, pass.handled)
    requires Visible(cfg, x) && AtOrUnder(x, q) && ClashAt(s0, q)
    ensures x != p || p == q
    ensures LoneSide(s0, p).Some? ==> !Under(x, p)
  {
    hide Visible, NamesFree, WalkFaithful, NoSpecialInTheWay, PassInv, Next, UnderAny;
    if Under(p, q) {
      AncestorIsDirOnBothSides(cfg, env, s0, done, pass, p, q);
      assert false;
    } else if AtOrUnder(x, p) {
      AboveComparable(x, p, q);
    }
  }

  lemma ClashStaysStep(cfg: Config, env: Env, s0: State, order: seq<Path>, n: nat, q: Path, x: Path)
    requires Start(cfg, env, s0) && UnionOrder(cfg, s0, order) && n < |order|
    requires Visible(cfg, x) && AtOrUnder(x, q) && ClashAt(s0, q)
    ensures var s, t := PassAt(cfg, env, s0, order, n).state, PassAt(cfg, env, s0, order, n + 1).state;
      At(t.a.disk, x) == At(s.a.disk, x) && At(t.b.disk, x) == At(s.b.disk, x)
  {
    hide UnionOrder, PassInv, ActNow, Ready, PassAt, UnderAny, Grown, LoneSide, At, ClashAt, Excluded,
      Clean, Frame, RowsElsewhereKept, BothDirs, Tree, NamesFree, WalkFaithful, NoSpecialInTheWay;
    TurnAt(cfg, env, s0, order, n);
    var pass, after, p := PassAt(cfg, env, s0, order, n), PassAt(cfg, env, s0, order, n + 1), order[n];
    if !UnderAny(p, pass.handled) {
      ClashBarsTurn(cfg, env, s0, order[..n], pass, p, q, x);
      if x == p {
        SameClash(s0, pass.state, p);
        ClashTurn(cfg, env, pass.state, p);
      } else {
        KeptByTurn(cfg, env, s0, pass.state, after.state, p, x);
      }
    }
  }

  lemma SameClash(s0: State, s: State, p: Path)
    requires At(s.a.disk, p) == At(s0.a.disk, p) && At(s.b.disk, p) == At(s0.b.disk, p)
    ensures ClashAt(s, p) == ClashAt(s0, p)
  {
  }

  lemma {:induction false} ClashStaysFor(cfg: Config, env: Env, s0: State, order: seq<Path>, n: nat, q: Path, x: Path)
    requires Start(cfg, env, s0) && UnionOrder(cfg, s0, order) && n <= |order|
    requires Visible(cfg, x) && AtOrUnder(x, q) && ClashAt(s0, q)
    ensures var t := PassAt(cfg, env, s0, order, n).state;
      At(t.a.disk, x) == At(s0.a.disk, x) && At(t.b.disk, x) == At(s0.b.disk, x)
  {
    hide Start, UnionOrder, Visible, ClashAt, At, Take;
    if n > 0 {
      hide PassAt;
      ClashStaysFor(cfg, env, s0, order, n - 1, q, x);
      ClashStaysStep(cfg, env, s0, order, n - 1, q, x);
    }
  }

  /** A directory facing a file is left to a human: neither it nor anything visible below it changes, on either side. */
  lemma ClashStays(cfg: Config, env: Env, s0: State, order: seq<Path>, q: Path, x: Path)
    requires Start(cfg, env, s0) && UnionOrder(cfg, s0, order)
    requires Visible(cfg, x) && AtOrUnder(x, q) && ClashAt(s0, q)
    ensures var t := Reconcile(cfg, env, s0, order);
      At(t.a.disk, x) == At(s0.a.disk, x) && At(t.b.disk, x) == At(s0.b.disk, x)
  {
    hide Start, UnionOrder, Visible, ClashAt, At, PassAt, Reconcile;
    ClashStaysFor(cfg, env, s0, order, |order|, q, x);
    PassAtEnd(cfg, env, s0, order);
  }

  // ----------------------------------------------------------- a pass over agreeing trees

  /** The same paths hold the same nodes, except that a directory may have other permissions. */
  ghost predicate SameTree(d: Disk, d': Disk) {
    forall x :: At(d', x) == At(d, x) || (x in d && x in d' && d[x].Dir? && d'[x].Dir?)
  }

  ghost predicate Idle(s: State, t: State) {
    SameTree(s.a.disk, t.a.disk) && SameTree(s.b.disk, t.b.disk) && t.conflicts == s.conflicts
  }

  lemma SameTreeWith(d: Disk, d': Disk, p: Path, n: Node)
    requires SameTree(d, d') && p in d && d[p].Dir? && n.Dir?
    ensures SameTree(d, d'[p := n])
  {
  }

  lemma IdleDirs(cfg: Config, s: State, t: State, p: Path, stA: Stat, stB: Stat)
    requires Idle(s, t) && BothDirs(s, p)
    ensures Idle(s, ReconcileAttrs(cfg, t, p, stA, stB).state)
  {
    hide AttrOrigin, EntryFor, SameTree;
    var src := AttrOrigin(t, p, stA, stB);
    BothStillDirs(s, t, p);
    var d := t.Of(src.Opposite()).disk;
    SameTreeWith(s.Of(src.Opposite()).disk, d, p, WithAttrs(d[p], t.Of(src).disk[p]));
  }

  lemma BothStillDirs(s: State, t: State, p: Path)
    requires Idle(s, t) && BothDirs(s, p)
    ensures BothDirs(t, p)
  {
    assert At(t.a.disk, p) == At(s.a.disk, p) || t.a.disk[p].Dir?;
    assert At(t.b.disk, p) == At(s.b.disk, p) || t.b.disk[p].Dir?;
  }

  lemma AgreeingFiles(cfg: Config, m: Node, n: Node)
    requires AgreeNodes(m, n) && Carries(m) && cfg.hashMax <= 0
    ensures Carries(n) && !Judge(cfg, m, n).differs && !AttrsDiverged(StatOf(m), StatOf(n))
  {
    FullDigestsDecide(m, n, cfg.hashMax, cfg.hashSample);
  }

  lemma IdleTurn(cfg: Config, env: Env, s: State, t: State, p: Path)
    requires Idle(s, t) && cfg.hashMax <= 0
    requires p in s.a.disk && p in s.b.disk && AgreeNodes(s.a.disk[p], s.b.disk[p])
    ensures var acted := Act(cfg, env, t, p, StatAt(s.a.disk, p), StatAt(s.b.disk, p), VerdictAt(cfg, s, p));
      Idle(s, acted.outcome.state) && !acted.oneSidedDir && !acted.typeClash
  {
    hide SameTree, AgreeNodes, Judge, ReconcileAttrs, ReconcileDiffering, EntryFor, CompareNow,
      AttrsDiverged, RecordPair;
    var m, n := s.a.disk[p], s.b.disk[p];
    if Carries(m) {
      AgreeingFiles(cfg, m, n);
      assert StatOf(m).kind != SpecialKind && StatOf(n).kind != SpecialKind;
      IdleRecorded(cfg, s, t, p);
    } else {
      AgreeingKinds(m, n);
      if m.Dir? { IdleDirs(cfg, s, t, p, StatOf(m), StatOf(n)); }
    }
  }

  lemma AgreeingKinds(m: Node, n: Node)
    requires AgreeNodes(m, n)
    ensures (m.Dir? <==> n.Dir?) && (m.Special? <==> n.Special?)
  {
  }

  lemma IdleRecorded(cfg: Config, s: State, t: State, p: Path)
    requires Idle(s, t)
    ensures Idle(s, Recorded(cfg, t, p, []).state)
  {
    hide SameTree, EntryFor;
  }

  lemma {:induction false} IdlePass(cfg: Config, env: Env, s: State, order: seq<Path>)
    requires cfg.hashMax <= 0
    requires forall p :: p in order ==> !Excluded(cfg.exclude, p) && p in s.a.disk && p in s.b.disk && AgreeNodes(s.a.disk[p], s.b.disk[p])
    ensures var pass := StalePass(cfg, env, Take(cfg, s), s, order);
      Idle(s, pass.state) && pass.handled == []
  {
    hide AgreeNodes, Act, Judge, Excluded;
    if order != [] {
      var n := |order| - 1;
      var p := order[n];
      assert order == order[..n] + [p];
      IdlePass(cfg, env, s, order[..n]);
      IdleTurn(cfg, env, s, StalePass(cfg, env, Take(cfg, s), s, order[..n]).state, p);
      SurveyOf(cfg, s, p);
    }
  }

  lemma SurveyOf(cfg: Config, s: State, p: Path)
    requires !Excluded(cfg.exclude, p)
    ensures Sync.Find(Take(cfg, s).invA, p) == StatAt(s.a.disk, p)
    ensures Sync.Find(Take(cfg, s).invB, p) == StatAt(s.b.disk, p)
    ensures Sync.Find(Take(cfg, s).verdicts, p) == VerdictAt(cfg, s, p)
  {
    hide Judge, Excluded;
  }

  /** A pass brings no new visible path into being. */
  ghost predicate NoNewcomers(cfg: Config, s0: State, s: State) {
    forall x :: !Excluded(cfg.exclude, x) && Present(s, x) ==> Present(s0, x)
  }

  lemma NewcomersStep(cfg: Config, env: Env, s0: State, s: State, p: Path)
    requires NoNewcomers(cfg, s0, s) && Ready(cfg, env, s, p)
    ensures NoNewcomers(cfg, s0, ActNow(cfg, env, s, p).outcome.state)
  {
    hide ActNow, Excluded, Clean, Saves, NamesFree, WalkFaithful, Tree, HasParents, RowsKept, ConflictsKept,
      RowsElsewhereKept, BothDirs, LoneSide, ClashAt, SpecialAt, Under;
    TurnIsOk(cfg, env, s, p);
    var acted := ActNow(cfg, env, s, p);
    var t := acted.outcome.state;
    forall x | !Excluded(cfg.exclude, x) && Present(t, x) ensures Present(s0, x) {
      VisibleIsNotSaved(cfg, p, x, env.clock(p));
      if Reached(x, p, acted.oneSidedDir) {
        assert Present(t, x) ==> Present(s, x);
      } else {
        assert At(t.a.disk, x) == At(s.a.disk, x) && At(t.b.disk, x) == At(s.b.disk, x);
      }
    }
  }

  lemma {:induction false} NewcomersNever(cfg: Config, env: Env, s0: State, order: seq<Path>, n: nat)
    requires Start(cfg, env, s0) && UnionOrder(cfg, s0, order) && n <= |order|
    ensures NoNewcomers(cfg, s0, PassAt(cfg, env, s0, order, n).state)
  {
    hide Start, UnionOrder, PassInv, Next, Turn, ActNow, Ready, StaleStep, Take, UnderAny, Grown, LoneSide,
      NoNewcomers;
    if n > 0 {
      hide PassAt;
      NewcomersNever(cfg, env, s0, order, n - 1);
      TurnAt(cfg, env, s0, order, n - 1);
      var pass := PassAt(cfg, env, s0, order, n - 1);
      if !UnderAny(order[n - 1], pass.handled) {
        NewcomersStep(cfg, env, s0, pass.state, order[n - 1]);
      }
    } else {
      NoNewcomersAtFirst(cfg, env, s0, order);
    }
  }

  lemma NoNewcomersAtFirst(cfg: Config, env: Env, s0: State, order: seq<Path>)
    ensures NoNewcomers(cfg, s0, PassAt(cfg, env, s0, order, 0).state)
  {
    hide Take, Excluded;
  }

  /**
   * Once is enough. Where no special file and no type clash stands in the way, a second pass, whatever
   * its clock, creates, removes and overwrites no file or link, and leaves the conflict list alone.
   */
  lemma SecondPassIsIdle(cfg: Config, env: Env, s0: State, order: seq<Path>, env': Env, order': seq<Path>)
    requires Start(cfg, env, s0) && UnionOrder(cfg, s0, order)
    requires cfg.hashMax <= 0 && cfg.conflict != Manual
    requires forall x :: Visible(cfg, x) ==> Clear(s0, x)
    requires UnionOrder(cfg, Reconcile(cfg, env, s0, order), order')
    ensures var s1 := Reconcile(cfg, env, s0, order); Idle(s1, Reconcile(cfg, env', s1, order'))
  {
    hide Clear, Excluded, Clean, Reconcile, AgreeNodes, PassAt, Idle, NoDuplicates, TopDown, Tree,
      WalkFaithful, NamesFree, NoSpecialInTheWay;
    var s1 := Reconcile(cfg, env, s0, order);
    NewcomersNever(cfg, env, s0, order, |order|);
    PassAtEnd(cfg, env, s0, order);
    forall p | p in order'
      ensures !Excluded(cfg.exclude, p) && p in s1.a.disk && p in s1.b.disk && AgreeNodes(s1.a.disk[p], s1.b.disk[p])
    {
      assert Present(s0, p) && Visible(cfg, p);
      Converges(cfg, env, s0, order, p);
    }
    IdlePass(cfg, env', s1, order');
    ReconcileIs(cfg, env', s1, order');
  }

  lemma ReconcileIs(cfg: Config, env: Env, s: State, order: seq<Path>)
    ensures Reconcile(cfg, env, s, order) == StalePass(cfg, env, Take(cfg, s), s, order).state
  {
  }
}
