// A whole reconciliation pass: what the state looks like between two turns of the apply loop.

module Passes {
  import opened Actions
  import opened Disks
  import opened Events
  import opened Exclude
  import opened Frames
  import opened Like
  import opened Names
  import opened Paths
  import opened Settings
  import opened Sync
  import Text

  /** Two well-formed trees, clean relative paths, and no saved name already in use. */
  ghost predicate Start(cfg: Config, env: Env, s: State) {
    && SavedExcluded(cfg) && WalkFaithful(env)
    && Tree(s.a.disk) && Tree(s.b.disk)
    && (forall p :: Present(s, p) && !Excluded(cfg.exclude, p) ==> Clean(p))
    && (forall p :: Visible(cfg, p) ==> NamesFree(s.a.disk, p, env.clock(p)) && NamesFree(s.b.disk, p, env.clock(p)))
    && NoSpecialInTheWay(cfg, s)
  }

  /** No directory faces a socket or device: such a path is skipped, but its entries are not. */
  ghost predicate NoSpecialInTheWay(cfg: Config, s: State) {
    forall p :: p in s.a.disk && p in s.b.disk && !Excluded(cfg.exclude, p) && SpecialAt(s, p) ==>
      !s.a.disk[p].Dir? && !s.b.disk[p].Dir?
  }

  predicate TopDown(order: seq<Path>) {
    forall i, j :: 0 <= i < j < |order| ==> !Under(order[i], order[j])
  }

  /** The order of the apply loop: every visible path once, directories before their contents. */
  ghost predicate UnionOrder(cfg: Config, s: State, order: seq<Path>) {
    && NoDuplicates(order) && TopDown(order)
    && forall p :: p in order <==> Present(s, p) && !Excluded(cfg.exclude, p)
  }

  // ------------------------------------------------- between two turns of the loop

  /** Not acted on yet, and not settled together with a directory above it. */
  predicate Pending(cfg: Config, done: seq<Path>, handled: seq<Path>, x: Path) {
    Visible(cfg, x) && x !in done && !UnderAny(x, handled)
  }

  ghost predicate HandledRight(s0: State, done: seq<Path>, handled: seq<Path>) {
    && (forall h :: h in handled ==> h in done && (LoneSide(s0, h).Some? || ClashAt(s0, h)) && !UnderAny(h, handled))
    && (forall h :: h in done && !UnderAny(h, handled) && (LoneSide(s0, h).Some? || ClashAt(s0, h)) ==> h in handled)
  }

  ghost predicate DirsRemain(s0: State, s: State, done: seq<Path>, handled: seq<Path>) {
    forall x :: x in done && !UnderAny(x, handled) && BothDirs(s0, x) ==> BothDirs(s, x)
  }

  ghost predicate PendingUntouched(cfg: Config, s0: State, s: State, done: seq<Path>, handled: seq<Path>) {
    forall x :: Pending(cfg, done, handled, x) ==>
      At(s.a.disk, x) == At(s0.a.disk, x) && At(s.b.disk, x) == At(s0.b.disk, x)
  }

  ghost predicate NamesRemainFree(cfg: Config, env: Env, s: State, done: seq<Path>, handled: seq<Path>) {
    forall x :: Pending(cfg, done, handled, x) ==>
      NamesFree(s.a.disk, x, env.clock(x)) && NamesFree(s.b.disk, x, env.clock(x))
  }

  ghost predicate RowsRemain(cfg: Config, s0: State, s: State, done: seq<Path>, handled: seq<Path>) {
    && (forall x :: Pending(cfg, done, handled, x) && x in s.a.rows ==> x in s0.a.rows && s.a.rows[x] == s0.a.rows[x])
    && (forall x :: Pending(cfg, done, handled, x) && x in s.b.rows ==> x in s0.b.rows && s.b.rows[x] == s0.b.rows[x])
  }

  ghost predicate ConflictsRemain(s0: State, s: State, done: seq<Path>) {
    forall x :: x !in done ==> Find(s.conflicts, x) == Find(s0.conflicts, x)
  }

  /** Everything a later turn relies on. */
  ghost predicate PassInv(cfg: Config, env: Env, s0: State, done: seq<Path>, pass: Pass) {
    && Tree(pass.state.a.disk) && Tree(pass.state.b.disk)
    && HandledRight(s0, done, pass.handled)
    && DirsRemain(s0, pass.state, done, pass.handled)
    && PendingUntouched(cfg, s0, pass.state, done, pass.handled)
    && NamesRemainFree(cfg, env, pass.state, done, pass.handled)
    && RowsRemain(cfg, s0, pass.state, done, pass.handled)
    && ConflictsRemain(s0, pass.state, done)
  }

  /** p comes next: not acted on, everything above it acted on, nothing below it acted on. */
  ghost predicate Next(cfg: Config, s0: State, done: seq<Path>, p: Path) {
    && Visible(cfg, p) && Present(s0, p) && p !in done
    && (forall q :: Under(p, q) && Present(s0, q) ==> q in done)
    && (forall q :: q in done ==> !Under(q, p) && Visible(cfg, q) && Present(s0, q))
  }

  lemma AncestorIsDirOnBothSides(cfg: Config, env: Env, s0: State, done: seq<Path>, pass: Pass, p: Path, q: Path)
    requires Start(cfg, env, s0) && PassInv(cfg, env, s0, done, pass) && Next(cfg, s0, done, p)
    requires !UnderAny(p, pass.handled) && Under(p, q)
    ensures q in done && BothDirs(s0, q) && BothDirs(pass.state, q)
  {
    hide Excluded, Clean, NamesFree, WalkFaithful, PendingUntouched, NamesRemainFree, RowsRemain,
      ConflictsRemain, TopDown;
    assert Present(s0, q);
    if UnderAny(q, pass.handled) {
      var h :| h in pass.handled && Under(q, h);
      UnderTransitive(p, q, h);
      assert false;
    }
    assert q !in pass.handled;
    assert Visible(cfg, q);
  }

  lemma ReadyAtTurn(cfg: Config, env: Env, s0: State, done: seq<Path>, pass: Pass, p: Path)
    requires Start(cfg, env, s0) && PassInv(cfg, env, s0, done, pass) && Next(cfg, s0, done, p)
    requires !UnderAny(p, pass.handled)
    ensures Ready(cfg, env, pass.state, p)
  {
    hide Excluded, Clean, NamesFree, WalkFaithful, PendingUntouched, RowsRemain, ConflictsRemain,
      DirsRemain, HandledRight, NoSpecialInTheWay;
    forall q | Under(p, q) ensures BothDirs(pass.state, q) {
      AncestorIsDirOnBothSides(cfg, env, s0, done, pass, p, q);
    }
  }

  /** At its turn, what the survey says of a pending path is still what the disks say. */
  lemma SurveyStillTrue(cfg: Config, env: Env, s0: State, done: seq<Path>, pass: Pass, p: Path)
    requires PassInv(cfg, env, s0, done, pass) && Next(cfg, s0, done, p)
    requires !UnderAny(p, pass.handled)
    ensures At(pass.state.a.disk, p) == At(s0.a.disk, p) && At(pass.state.b.disk, p) == At(s0.b.disk, p)
    ensures var acted := ActNow(cfg, env, pass.state, p);
      StaleStep(cfg, env, Take(cfg, s0), pass, p)
      == Pass(acted.outcome.state, if acted.oneSidedDir || acted.typeClash then pass.handled + [p] else pass.handled)
  {
    hide Excluded, Clean, NamesFree, NamesRemainFree, RowsRemain, ConflictsRemain, DirsRemain, HandledRight,
      Act, Judge, UnderAny;
    assert Pending(cfg, done, pass.handled, p);
  }

  // --------------------------------------------------------------- one turn

  /** The step from s to t at p, with the list of settled directories growing accordingly. */
  ghost predicate Turn(cfg: Config, env: Env, s0: State, s: State, t: State, p: Path, wide: bool) {
    && At(s.a.disk, p) == At(s0.a.disk, p) && At(s.b.disk, p) == At(s0.b.disk, p)
    && Frame(s, t, p, wide, env.clock(p))
    && wide == LoneSide(s0, p).Some?
    && (BothDirs(s0, p) ==> BothDirs(t, p) && RowsElsewhereKept(s, t, p))
  }

  function Grown(s0: State, handled: seq<Path>, p: Path): seq<Path> {
    if LoneSide(s0, p).Some? || ClashAt(s0, p) then handled + [p] else handled
  }

  lemma VisibleIsNotSaved(cfg: Config, p: Path, q: Path, at: Stamp)
    requires SavedExcluded(cfg) && Clean(p) && !Excluded(cfg.exclude, q)
    ensures !Saves(q, p, at)
  {
    hide SavedFor, Excluded, Clean;
    if SavedFor(q, p, SideA, at) { SavedNamesAreExcluded(cfg.exclude, q, p, SideA, at); }
    if SavedFor(q, p, SideB, at) { SavedNamesAreExcluded(cfg.exclude, q, p, SideB, at); }
  }

  lemma StillPending(cfg: Config, s0: State, done: seq<Path>, handled: seq<Path>, p: Path, x: Path)
    requires Pending(cfg, done + [p], Grown(s0, handled, p), x)
    ensures Pending(cfg, done, handled, x) && x != p
    ensures !Reached(x, p, LoneSide(s0, p).Some?)
  {
    hide Visible;
    assert p in done + [p];
    assert x in done ==> x in done + [p];
    UnderAnyStep(x, handled, p);
  }

  lemma HandledStep(cfg: Config, s0: State, done: seq<Path>, handled: seq<Path>, p: Path)
    requires HandledRight(s0, done, handled) && Next(cfg, s0, done, p) && !UnderAny(p, handled)
    ensures HandledRight(s0, done + [p], Grown(s0, handled, p))
  {
    hide Visible, LoneSide, ClashAt;
    var grown := Grown(s0, handled, p);
    forall h ensures UnderAny(h, grown) <==> UnderAny(h, handled) || (grown != handled && Under(h, p)) {
      UnderAnyStep(h, handled, p);
    }
    forall h | h in grown ensures h in done + [p] && (LoneSide(s0, h).Some? || ClashAt(s0, h)) && !UnderAny(h, grown) {
      assert h in handled || h == p;
      assert !Under(p, p);
    }
  }

  lemma DirsStep(cfg: Config, env: Env, s0: State, s: State, t: State, done: seq<Path>, handled: seq<Path>, p: Path)
    requires DirsRemain(s0, s, done, handled) && Next(cfg, s0, done, p) && SavedExcluded(cfg)
    requires Turn(cfg, env, s0, s, t, p, LoneSide(s0, p).Some?)
    ensures DirsRemain(s0, t, done + [p], Grown(s0, handled, p))
  {
    hide Saves, Excluded, Clean, Tree, RowsKept, ConflictsKept, LoneSide, RowsElsewhereKept;
    forall x | x in done + [p] && !UnderAny(x, Grown(s0, handled, p)) && BothDirs(s0, x) ensures BothDirs(t, x) {
      UnderAnyStep(x, handled, p);
      if x != p {
        assert x in done;
        VisibleIsNotSaved(cfg, p, x, env.clock(p));
        assert At(t.a.disk, x) == At(s.a.disk, x) && At(t.b.disk, x) == At(s.b.disk, x);
      }
    }
  }

  lemma UntouchedStep(cfg: Config, env: Env, s0: State, s: State, t: State, done: seq<Path>,
        handled: seq<Path>, p: Path)
    requires PendingUntouched(cfg, s0, s, done, handled) && Visible(cfg, p) && SavedExcluded(cfg)
    requires Turn(cfg, env, s0, s, t, p, LoneSide(s0, p).Some?)
    ensures PendingUntouched(cfg, s0, t, done + [p], Grown(s0, handled, p))
  {
    hide Saves, Excluded, Clean, Tree, RowsKept, ConflictsKept, LoneSide, RowsElsewhereKept, Reached, Grown,
      BothDirs;
    forall x | Pending(cfg, done + [p], Grown(s0, handled, p), x)
      ensures At(t.a.disk, x) == At(s0.a.disk, x) && At(t.b.disk, x) == At(s0.b.disk, x)
    {
      StillPending(cfg, s0, done, handled, p, x);
      VisibleIsNotSaved(cfg, p, x, env.clock(p));
      assert At(t.a.disk, x) == At(s.a.disk, x) && At(t.b.disk, x) == At(s.b.disk, x);
    }
  }

  lemma RowsStep(cfg: Config, env: Env, s0: State, s: State, t: State, done: seq<Path>, handled: seq<Path>, p: Path)
    requires RowsRemain(cfg, s0, s, done, handled)
    requires Turn(cfg, env, s0, s, t, p, LoneSide(s0, p).Some?)
    ensures RowsRemain(cfg, s0, t, done + [p], Grown(s0, handled, p))
  {
    hide Saves, Visible, Tree, DiskKept, ConflictsKept, LoneSide, Reached, Grown, BothDirs, CaseUnder;
    forall x | Pending(cfg, done + [p], Grown(s0, handled, p), x)
      ensures Pending(cfg, done, handled, x)
      ensures x in t.a.rows ==> x in s.a.rows && t.a.rows[x] == s.a.rows[x]
      ensures x in t.b.rows ==> x in s.b.rows && t.b.rows[x] == s.b.rows[x]
    {
      StillPending(cfg, s0, done, handled, p, x);
    }
  }

  lemma ConflictsStep(s0: State, s: State, t: State, done: seq<Path>, p: Path)
    requires ConflictsRemain(s0, s, done) && ConflictsKept(s.conflicts, t.conflicts, p)
    ensures ConflictsRemain(s0, t, done + [p])
  {
    forall x | x !in done + [p] ensures Find(t.conflicts, x) == Find(s0.conflicts, x) {
      assert p in done + [p] && (x in done ==> x in done + [p]);
    }
  }

  // -------------------------------------------------- saved names stay available

  lemma UnmarkedWhenVisible(cfg: Config, p: Path)
    requires SavedExcluded(cfg) && !Excluded(cfg.exclude, p)
    ensures !Text.Contains(p, MARK)
  {
    hide Excluded;
    if Text.Contains(p, MARK) {
      MarkedIsExcluded(cfg.exclude, p);
    }
  }

  lemma SavesDisjoint(cfg: Config, y: Path, p: Path, q: Path, t1: Stamp, t2: Stamp)
    requires SavedExcluded(cfg) && Visible(cfg, p) && Visible(cfg, q) && p != q
    ensures !(Saves(y, p, t1) && Saves(y, q, t2))
  {
    hide SavedFor, Excluded, Clean;
    UnmarkedWhenVisible(cfg, p);
    UnmarkedWhenVisible(cfg, q);
    forall s1: Side, s2: Side | SavedFor(y, p, s1, t1) && SavedFor(y, q, s2, t2) ensures false {
      SavedDisjoint(y, p, s1, t1, q, s2, t2);
    }
  }

  /** A saved name of q that lies below a visible directory p puts q itself below p. */
  lemma SavedBelowMeansBelow(cfg: Config, y: Path, p: Path, q: Path, side: Side, at: Stamp)
    requires SavedExcluded(cfg) && Visible(cfg, p) && Visible(cfg, q)
    requires SavedFor(y, q, side, at) && Under(y, p)
    ensures Under(q, p)
  {
    hide ConflictName, PreservedDirName, Excluded, Clean;
    if y == ConflictName(q, side, at) {
      ConflictNameSitsBeside(q, side, at, p);
    } else {
      var d := PreservedDirName(q, side, at);
      AboveComparable(y, p, d);
      if AtOrUnder(p, d) {
        SavedNamesAreExcluded(cfg.exclude, p, q, side, at);
        assert false;
      }
      PreservedDirSitsBeside(q, side, at, p);
    }
  }

  lemma NamesFreeStep(cfg: Config, d: Disk, d': Disk, p: Path, q: Path, wide: bool, t1: Stamp, t2: Stamp)
    requires SavedExcluded(cfg) && Visible(cfg, p) && Visible(cfg, q) && !Reached(q, p, wide)
    requires NamesFree(d, q, t2) && DiskKept(d, d', p, wide, t1)
    ensures NamesFree(d', q, t2)
  {
    hide SavedFor, Excluded, Clean;
    forall y | y in d' ensures !Saves(y, q, t2) {
      if Saves(y, q, t2) {
        SavesDisjoint(cfg, y, p, q, t1, t2);
        var side := if SavedFor(y, q, SideA, t2) then SideA else SideB;
        if Reached(y, p, wide) {
          if y == p {
            SavedNamesAreExcluded(cfg.exclude, p, q, side, t2);
            assert false;
          }
          SavedBelowMeansBelow(cfg, y, p, q, side, t2);
        } else {
          assert false;
        }
      }
    }
  }

  lemma NamesStep(cfg: Config, env: Env, s0: State, s: State, t: State, done: seq<Path>, handled: seq<Path>, p: Path)
    requires NamesRemainFree(cfg, env, s, done, handled) && Visible(cfg, p) && SavedExcluded(cfg)
    requires Turn(cfg, env, s0, s, t, p, LoneSide(s0, p).Some?)
    ensures NamesRemainFree(cfg, env, t, done + [p], Grown(s0, handled, p))
  {
    hide NamesFree, Excluded, Clean, Tree, RowsKept, ConflictsKept, DiskKept, LoneSide, RowsElsewhereKept,
      Reached, Grown, BothDirs;
    forall x | Pending(cfg, done + [p], Grown(s0, handled, p), x)
      ensures NamesFree(t.a.disk, x, env.clock(x)) && NamesFree(t.b.disk, x, env.clock(x))
    {
      StillPending(cfg, s0, done, handled, p, x);
      NamesFreeStep(cfg, s.a.disk, t.a.disk, p, x, LoneSide(s0, p).Some?, env.clock(p), env.clock(x));
      NamesFreeStep(cfg, s.b.disk, t.b.disk, p, x, LoneSide(s0, p).Some?, env.clock(p), env.clock(x));
    }
  }

  // ------------------------------------------------------------- the whole pass

  lemma SkippedTurn(cfg: Config, env: Env, s0: State, done: seq<Path>, pass: Pass, p: Path)
    requires PassInv(cfg, env, s0, done, pass) && UnderAny(p, pass.handled)
    ensures PassInv(cfg, env, s0, done + [p], pass)
  {
    hide Visible, Tree, NamesFree, LoneSide, ClashAt, BothDirs, CaseUnder, UnderAny;
    var more := done + [p];
    assert forall x :: x in done ==> x in more;
    assert forall x :: x in more ==> x in done || x == p;
    assert forall x :: Pending(cfg, more, pass.handled, x) ==> Pending(cfg, done, pass.handled, x);
    assert RowsRemain(cfg, s0, pass.state, more, pass.handled);
  }

  lemma TurnTaken(cfg: Config, env: Env, s0: State, done: seq<Path>, pass: Pass, p: Path)
    requires Start(cfg, env, s0) && PassInv(cfg, env, s0, done, pass) && Next(cfg, s0, done, p)
    requires !UnderAny(p, pass.handled)
    ensures var after := StaleStep(cfg, env, Take(cfg, s0), pass, p);
      Turn(cfg, env, s0, pass.state, after.state, p, LoneSide(s0, p).Some?)
      && after.handled == Grown(s0, pass.handled, p)
      && after.state == ActNow(cfg, env, pass.state, p).outcome.state
      && Ready(cfg, env, pass.state, p)
  {
    hide StaleStep, Take, ActNow, Frame, PassInv, Start, Next, Ready, RowsElsewhereKept;
    ReadyAtTurn(cfg, env, s0, done, pass, p);
    SurveyStillTrue(cfg, env, s0, done, pass, p);
    TurnIsOk(cfg, env, pass.state, p);
  }

  lemma PassInvStep(cfg: Config, env: Env, s0: State, done: seq<Path>, pass: Pass, p: Path)
    requires Start(cfg, env, s0) && PassInv(cfg, env, s0, done, pass) && Next(cfg, s0, done, p)
    ensures PassInv(cfg, env, s0, done + [p], StaleStep(cfg, env, Take(cfg, s0), pass, p))
  {
    hide Take, ActNow, HandledRight, DirsRemain, PendingUntouched, NamesRemainFree, RowsRemain,
      ConflictsRemain, Tree, Visible, WalkFaithful, NoSpecialInTheWay, LoneSide, Ready, BothDirs;
    if UnderAny(p, pass.handled) {
      SkippedTurn(cfg, env, s0, done, pass, p);
    } else {
      TurnTaken(cfg, env, s0, done, pass, p);
      hide StaleStep;
      var after := StaleStep(cfg, env, Take(cfg, s0), pass, p);
      var s, t := pass.state, after.state;
      HandledStep(cfg, s0, done, pass.handled, p);
      DirsStep(cfg, env, s0, s, t, done, pass.handled, p);
      UntouchedStep(cfg, env, s0, s, t, done, pass.handled, p);
      NamesStep(cfg, env, s0, s, t, done, pass.handled, p);
      RowsStep(cfg, env, s0, s, t, done, pass.handled, p);
      ConflictsStep(s0, s, t, done, p);
    }
  }

  lemma NextInOrder(cfg: Config, env: Env, s0: State, order: seq<Path>, n: nat)
    requires Start(cfg, env, s0) && UnionOrder(cfg, s0, order) && n < |order|
    ensures Next(cfg, s0, order[..n], order[n])
  {
    hide Excluded, Clean, NamesFree, WalkFaithful, Tree, NoSpecialInTheWay;
    var p := order[n];
    forall q | Under(p, q) && Present(s0, q) ensures q in order[..n] {
      if Excluded(cfg.exclude, q) {
        ExcludedBelow(cfg.exclude, p, q);
      }
      assert q in order;
      var k :| 0 <= k < |order| && order[k] == q;
      assert k != n;
      assert order[..n][k] == q;
    }
  }

  lemma {:induction false} PassInvHolds(cfg: Config, env: Env, s0: State, order: seq<Path>, n: nat)
    requires Start(cfg, env, s0) && UnionOrder(cfg, s0, order) && n <= |order|
    ensures PassInv(cfg, env, s0, order[..n], StalePass(cfg, env, Take(cfg, s0), s0, order[..n]))
  {
    hide PassInv, UnionOrder, StaleStep, Take, Next;
    if n == 0 {
      InitialPass(cfg, env, s0);
    } else {
      PassInvHolds(cfg, env, s0, order, n - 1);
      NextInOrder(cfg, env, s0, order, n - 1);
      PassInvStep(cfg, env, s0, order[..n - 1], StalePass(cfg, env, Take(cfg, s0), s0, order[..n - 1]), order[n - 1]);
      assert order[..n][..n - 1] == order[..n - 1];
      assert order[..n] == order[..n - 1] + [order[n - 1]];
    }
  }

  lemma InitialPass(cfg: Config, env: Env, s0: State)
    requires Start(cfg, env, s0)
    ensures PassInv(cfg, env, s0, [], Pass(s0, []))
  {
    hide Visible, Tree, NamesFree, LoneSide, ClashAt, BothDirs, CaseUnder, WalkFaithful;
  }
}
