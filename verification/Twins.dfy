// Rows over a whole pass. The table forgets a removed path and whatever it covers up to letter case
// (internal/state/state.go), so the rows of one path can fall with a directory beside it. Which rows
// fall, and when, is decided by the two trees, the table and the order alone.

module Twins {
  import opened Actions
  import opened Disks
  import opened Frames
  import opened Like
  import opened Options
  import opened Passes
  import opened Paths
  import opened Reconciled
  import opened Settings
  import opened Sync

  /** The place of a path exists on both sides. */
  ghost predicate Placed(s: State, p: Path) {
    HasParents(s.a.disk, p) && HasParents(s.b.disk, p)
  }

  /** One side alone has q, in a place both have, and policy or table want it gone. */
  ghost predicate Doomed(cfg: Config, s0: State, q: Path) {
    Placed(s0, q) && Removes(cfg, s0, q)
  }

  /** No doomed path among those acted on covers x up to letter case. */
  ghost predicate Twinless(cfg: Config, s0: State, done: seq<Path>, x: Path) {
    forall q :: q in done && CaseUnder(x, q) ==> !Doomed(cfg, s0, q)
  }

  /** The same for a path of the order, at its turn. */
  ghost predicate Untwinned(cfg: Config, s0: State, order: seq<Path>, p: Path) {
    forall i, j :: 0 <= i < j < |order| && order[j] == p && CaseUnder(p, order[i]) ==> !Doomed(cfg, s0, order[i])
  }

  lemma UntwinnedAtTurn(cfg: Config, s0: State, order: seq<Path>, k: nat)
    requires NoDuplicates(order) && k < |order|
    ensures Untwinned(cfg, s0, order, order[k]) <==> Twinless(cfg, s0, order[..k], order[k])
  {
    hide Doomed, CaseUnder;
    var p := order[k];
    if Untwinned(cfg, s0, order, p) {
      forall q | q in order[..k] && CaseUnder(p, q) ensures !Doomed(cfg, s0, q) {
        var i :| 0 <= i < k && order[..k][i] == q;
        assert order[i] == q;
      }
    }
    if Twinless(cfg, s0, order[..k], p) {
      forall i, j | 0 <= i < j < |order| && order[j] == p && CaseUnder(p, order[i]) ensures !Doomed(cfg, s0, order[i]) {
        assert j == k;
        assert order[..k][i] == order[i];
      }
    }
  }

  lemma CoveringIsTransitive(x: Path, q: Path, r: Path)
    requires CaseUnder(x, q) && CaseUnder(q, r)
    ensures CaseUnder(x, r)
  {
    assert Fold(x[|r|]) == Fold(q[|r|]);
  }

  lemma TwinlessStep(cfg: Config, s0: State, done: seq<Path>, q: Path, x: Path)
    ensures Twinless(cfg, s0, done + [q], x) <==> Twinless(cfg, s0, done, x) && (CaseUnder(x, q) ==> !Doomed(cfg, s0, q))
  {
    hide Doomed, CaseUnder;
    assert q in done + [q] && forall r :: r in done ==> r in done + [q];
  }

  /** Covered by a path that is itself covered by a doomed one: then the doomed one covers both. */
  lemma TwinsPassDown(cfg: Config, s0: State, done: seq<Path>, x: Path, q: Path)
    requires CaseUnder(x, q) && !Twinless(cfg, s0, done, q)
    ensures !Twinless(cfg, s0, done, x)
  {
    hide Doomed, CaseUnder;
    var r :| r in done && CaseUnder(q, r) && Doomed(cfg, s0, r);
    CoveringIsTransitive(x, q, r);
  }

  /** What is left of a row when a doomed path may have covered it. */
  ghost predicate RowsLeft(cfg: Config, s0: State, s: State, done: seq<Path>, x: Path) {
    && Sync.Find(s.a.rows, x) == (if Twinless(cfg, s0, done, x) then Sync.Find(s0.a.rows, x) else None)
    && Sync.Find(s.b.rows, x) == (if Twinless(cfg, s0, done, x) then Sync.Find(s0.b.rows, x) else None)
  }

  lemma SameLone(s0: State, s: State, q: Path)
    requires At(s.a.disk, q) == At(s0.a.disk, q) && At(s.b.disk, q) == At(s0.b.disk, q)
    ensures LoneOn(s, q) == LoneOn(s0, q)
  {
  }

  /** A removal happens at its turn exactly when it was meant at the start and, under union, the row is still there. */
  lemma RemovedNow(cfg: Config, s0: State, s: State, done: seq<Path>, q: Path)
    requires At(s.a.disk, q) == At(s0.a.disk, q) && At(s.b.disk, q) == At(s0.b.disk, q)
    requires RowsLeft(cfg, s0, s, done, q)
    ensures Removes(cfg, s, q) <==> Removes(cfg, s0, q) && (cfg.first == Union ==> Twinless(cfg, s0, done, q))
  {
    hide Twinless, LoneOn;
    SameLone(s0, s, q);
    if LoneOn(s, q).Some? {
      var side := LoneOn(s, q).value.Opposite();
      assert Sync.Find(s.Of(side).rows, q) == if Twinless(cfg, s0, done, q) then Sync.Find(s0.Of(side).rows, q) else None;
    }
  }

  lemma PlacedIsNotBelow(s0: State, x: Path, q: Path)
    requires Placed(s0, x) && Under(x, q)
    ensures BothDirs(s0, q) && LoneOn(s0, q).None?
  {
  }

  /** One acting turn, seen from a path that is not yet acted on. */
  lemma RowsLeftStep(cfg: Config, env: Env, s0: State, s: State, done: seq<Path>, q: Path, x: Path)
    requires Ready(cfg, env, s, q) && Placed(s0, x) && Placed(s0, q) && x != q
    requires At(s.a.disk, q) == At(s0.a.disk, q) && At(s.b.disk, q) == At(s0.b.disk, q)
    requires RowsLeft(cfg, s0, s, done, x) && RowsLeft(cfg, s0, s, done, q)
    ensures RowsLeft(cfg, s0, ActNow(cfg, env, s, q).outcome.state, done + [q], x)
  {
    hide Ready, ActNow, Removes, Placed, Twinless, LoneOn, CaseUnder, Under, BothDirs;
    SameLone(s0, s, q);
    if Under(x, q) { PlacedIsNotBelow(s0, x, q); }
    TurnRows(cfg, env, s, q, x);
    RemovedNow(cfg, s0, s, done, q);
    TwinlessStep(cfg, s0, done, q, x);
    if CaseUnder(x, q) && !Twinless(cfg, s0, done, q) { TwinsPassDown(cfg, s0, done, x, q); }
  }

  /** A path skipped below a settled directory has no place on one of the sides. */
  lemma SkippedIsNotPlaced(s0: State, done: seq<Path>, handled: seq<Path>, q: Path)
    requires HandledRight(s0, done, handled) && UnderAny(q, handled)
    ensures !Placed(s0, q)
  {
    var h :| h in handled && Under(q, h);
    assert LoneSide(s0, h).Some? || ClashAt(s0, h);
  }

  lemma SkippedRows(cfg: Config, s0: State, s: State, done: seq<Path>, q: Path, x: Path)
    requires RowsLeft(cfg, s0, s, done, x) && !Placed(s0, q)
    ensures RowsLeft(cfg, s0, s, done + [q], x)
  {
    hide Twinless, Placed, Removes, CaseUnder;
    TwinlessStep(cfg, s0, done, q, x);
  }

  /** A path that gets its turn has its place on both sides. */
  lemma TurnIsPlaced(cfg: Config, env: Env, s0: State, done: seq<Path>, pass: Pass, q: Path)
    requires Start(cfg, env, s0) && PassInv(cfg, env, s0, done, pass) && Next(cfg, s0, done, q)
    requires !UnderAny(q, pass.handled)
    ensures Placed(s0, q)
  {
    hide Start, PassInv, Next, UnderAny, BothDirs;
    forall r | Under(q, r) ensures r in s0.a.disk && s0.a.disk[r].Dir? && r in s0.b.disk && s0.b.disk[r].Dir? {
      AncestorIsDirOnBothSides(cfg, env, s0, done, pass, q, r);
      DirsOf(s0, r);
    }
  }

  lemma DirsOf(s: State, r: Path)
    requires BothDirs(s, r)
    ensures r in s.a.disk && s.a.disk[r].Dir? && r in s.b.disk && s.b.disk[r].Dir?
  {
  }

  /**
   * The rows of a path whose place exists on both sides, before its turn: what they were at the start,
   * unless a doomed path covered them up to letter case, and then gone from both sides.
   */
  lemma {:induction false} RowsExactly(cfg: Config, env: Env, s0: State, order: seq<Path>, n: nat, x: Path)
    requires Start(cfg, env, s0) && UnionOrder(cfg, s0, order) && n <= |order|
    requires Placed(s0, x) && forall j :: 0 <= j < n ==> order[j] != x
    ensures RowsLeft(cfg, s0, PassAt(cfg, env, s0, order, n).state, order[..n], x)
    decreases n
  {
    hide Start, UnionOrder, PassInv, Next, Turn, ActNow, Ready, Take, Placed, RowsLeft, UnderAny, Grown;
    if n == 0 {
      RowsAtFirst(cfg, env, s0, order, x);
    } else {
      var q := order[n - 1];
      TurnAt(cfg, env, s0, order, n - 1);
      RowsExactly(cfg, env, s0, order, n - 1, x);
      var pass := PassAt(cfg, env, s0, order, n - 1);
      assert order[..n] == order[..n - 1] + [q];
      HandledFact(cfg, env, s0, order[..n - 1], pass);
      if UnderAny(q, pass.handled) {
        SkippedIsNotPlaced(s0, order[..n - 1], pass.handled, q);
        SkippedRows(cfg, s0, pass.state, order[..n - 1], q, x);
      } else {
        TurnIsPlaced(cfg, env, s0, order[..n - 1], pass, q);
        FreshInOrder(cfg, s0, order, n - 1);
        RowsExactly(cfg, env, s0, order, n - 1, q);
        TurnSees(cfg, env, s0, order, n - 1);
        RowsLeftStep(cfg, env, s0, pass.state, order[..n - 1], q, x);
      }
    }
  }

  lemma RowsAtFirst(cfg: Config, env: Env, s0: State, order: seq<Path>, x: Path)
    ensures RowsLeft(cfg, s0, PassAt(cfg, env, s0, order, 0).state, order[..0], x)
  {
    hide Doomed, Take;
    assert order[..0] == [];
  }

  lemma HandledFact(cfg: Config, env: Env, s0: State, done: seq<Path>, pass: Pass)
    requires PassInv(cfg, env, s0, done, pass)
    ensures HandledRight(s0, done, pass.handled)
  {
  }

  lemma FreshInOrder(cfg: Config, s0: State, order: seq<Path>, n: nat)
    requires UnionOrder(cfg, s0, order) && n < |order|
    ensures forall j :: 0 <= j < n ==> order[j] != order[n]
  {
    hide TopDown;
  }

  lemma TurnSees(cfg: Config, env: Env, s0: State, order: seq<Path>, n: nat)
    requires Start(cfg, env, s0) && UnionOrder(cfg, s0, order) && n < |order|
    requires !UnderAny(order[n], PassAt(cfg, env, s0, order, n).handled)
    ensures var s, q := PassAt(cfg, env, s0, order, n).state, order[n];
      At(s.a.disk, q) == At(s0.a.disk, q) && At(s.b.disk, q) == At(s0.b.disk, q)
  {
    hide Start, UnionOrder, PassInv, Next, ActNow, Ready, PassAt, UnderAny, Grown, At, Frame, BothDirs,
      RowsElsewhereKept, LoneSide;
    TurnAt(cfg, env, s0, order, n);
  }
}
