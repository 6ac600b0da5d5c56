// Where idempotence does not end an exchange: the engine's own writes come back as events that make it
// write again (internal/engine/engine.go, internal/transfer/transfer.go). Exactly which events do.

module Rebounds {
  import opened Actions
  import CaseTwins
  import opened Digests
  import opened Disks
  import opened EventRuns
  import opened Events
  import opened Exclude
  import opened Frames
  import opened Names
  import opened Nodes
  import opened Options
  import opened Paths
  import opened Settings
  import Straying
  import opened Sync

  lemma OneStepMore(cfg: Config, env: Env, c: System, c': System)
    requires Step(cfg, env, c, c') && Endless(cfg, env, c')
    ensures Endless(cfg, env, c)
  {
    hide Step;
    var run: nat -> System :| run(0) == c' && forall n: nat :: Step(cfg, env, run(n), run(n + 1));
    var longer: nat -> System := (n: nat) => if n == 0 then c else run(n - 1);
    forall n: nat ensures Step(cfg, env, longer(n), longer(n + 1)) {
      if n > 0 { assert Step(cfg, env, run(n - 1), run(n)); }
    }
    assert longer(0) == c;
  }

  /** Handling the event at place i, with one echo, is a step. */
  lemma StepWithEcho(cfg: Config, env: Env, c: System, i: nat, echo: Event)
    requires i < |c.pending| && c.pending[i].kind != Move
    requires EchoesOf(cfg, [echo], Process(cfg, env, c.state, c.pending[i]).state,
               AllWrites(c.state, Process(cfg, env, c.state, c.pending[i])))
    ensures var o := Process(cfg, env, c.state, c.pending[i]);
      Step(cfg, env, c, System(o.state, c.pending[..i] + c.pending[i + 1..] + [echo], c.log + AllWrites(c.state, o)))
  {
    hide Process, EchoesOf, AllWrites;
    var o := Process(cfg, env, c.state, c.pending[i]);
    var c' := System(o.state, c.pending[..i] + c.pending[i + 1..] + [echo], c.log + AllWrites(c.state, o));
    assert Handles(cfg, env, c, c', i, [echo]);
  }

  // -------------------------------------------------------------- attribute events

  /** The echo of an attribute event that wrote the other side. */
  function EchoOf(t: State, e: Event): Event {
    e.(side := e.side.Opposite(), isDir := DirAt(t, e.side.Opposite(), e.path))
  }

  /** An attribute event, the last one pending, answered by its own echo, n times over. */
  ghost function Bounced(cfg: Config, env: Env, c: System, n: nat): (b: System)
    requires c.pending != [] && c.pending[|c.pending| - 1].kind == Attrib
    ensures |b.pending| == |c.pending|
    ensures var e := b.pending[|c.pending| - 1]; e.kind == Attrib && e.path == c.pending[|c.pending| - 1].path
  {
    if n == 0 then c
    else
      var b := Bounced(cfg, env, c, n - 1);
      var k := |c.pending| - 1;
      var o := Process(cfg, env, b.state, b.pending[k]);
      System(o.state, b.pending[..k] + [EchoOf(o.state, b.pending[k])], b.log + AllWrites(b.state, o))
  }

  /**
   * The two sides hold something else, as far as digests tell, to which attributes can be copied either
   * way. Directories have no digest: any two of them count.
   */
  predicate Apart(cfg: Config, s: State, p: Path) {
    && p in s.a.disk && p in s.b.disk && !SpecialAt(s, p) && (s.a.disk[p].Symlink? <==> s.b.disk[p].Symlink?)
    && !SameDigests(cfg, s, p)
  }

  lemma AttrsStayApart(cfg: Config, m: Node, n: Node)
    requires !m.Special? && !n.Special? && (m.Symlink? <==> n.Symlink?)
    ensures var n' := WithAttrs(n, m);
      !n'.Special? && (n'.Symlink? <==> n.Symlink?) && DigestOf(cfg, n') == DigestOf(cfg, n)
  {
  }

  lemma AttrsLeave(cfg: Config, s: State, src: Side, p: Path)
    requires p in s.a.disk && p in s.b.disk && (s.a.disk[p].Symlink? <==> s.b.disk[p].Symlink?)
    ensures var o, dst := PropagateAttrs(cfg, s, src, p), src.Opposite();
      && o.writes == [(dst, p)] && p in o.state.a.disk && p in o.state.b.disk
      && o.state.Of(src).disk[p] == s.Of(src).disk[p]
      && o.state.Of(dst).disk[p] == WithAttrs(s.Of(dst).disk[p], s.Of(src).disk[p])
      && Sync.Find(o.state.a.rows, p) == Some(EntryFor(cfg, o.state.a.disk[p]))
      && Sync.Find(o.state.b.rows, p) == Some(EntryFor(cfg, o.state.b.disk[p]))
  {
    hide EntryFor, WithAttrs;
  }

  lemma BounceOnce(cfg: Config, env: Env, s: State, ev: Event)
    requires ev.kind == Attrib && Apart(cfg, s, ev.path) && !AlreadySynced(cfg, s, ev)
    ensures var o := Process(cfg, env, s, ev);
      && o.writes == [(ev.side.Opposite(), ev.path)]
      && Apart(cfg, o.state, ev.path) && !AlreadySynced(cfg, o.state, EchoOf(o.state, ev))
  {
    hide EntryFor, DigestOf, PropagateAttrs, AlreadySynced, WithAttrs;
    var p, src := ev.path, ev.side;
    AttrsLeave(cfg, s, src, p);
    AttrsStayApart(cfg, s.Of(src).disk[p], s.Of(src.Opposite()).disk[p]);
    var t := PropagateAttrs(cfg, s, src, p).state;
    ApartIsNotSynced(cfg, t, EchoOf(t, ev));
  }

  /** Digests that differ, or that are missing, are never taken for a settled pair. */
  lemma ApartIsNotSynced(cfg: Config, s: State, ev: Event)
    requires Apart(cfg, s, ev.path) && ev.kind == Attrib
    requires Sync.Find(s.a.rows, ev.path) == Some(EntryFor(cfg, s.a.disk[ev.path]))
    requires Sync.Find(s.b.rows, ev.path) == Some(EntryFor(cfg, s.b.disk[ev.path]))
    ensures !AlreadySynced(cfg, s, ev)
  {
    hide DigestOf, Stored;
    var a, b := s.a.disk[ev.path], s.b.disk[ev.path];
    StoredStayApart(cfg, a, b);
    CompareSymmetric(EntryFor(cfg, a).digest, EntryFor(cfg, b).digest);
  }

  lemma StoredStayApart(cfg: Config, m: Node, n: Node)
    requires Compare(DigestOf(cfg, m), DigestOf(cfg, n)) != Same
    ensures Compare(EntryFor(cfg, m).digest, EntryFor(cfg, n).digest) != Same
  {
    if Carries(m) && Carries(n) {
      hide DigestOf, Stored;
      StoredCompares(cfg, m, n);
    } else {
      assert EntryFor(cfg, m).digest.IsZero() || EntryFor(cfg, n).digest.IsZero();
    }
  }

  /** The last event pending is an attribute event at a path where the two sides are apart. */
  ghost predicate Bouncing(cfg: Config, c: System) {
    && c.pending != []
    && var ev := c.pending[|c.pending| - 1];
    ev.kind == Attrib && Visible(cfg, ev.path) && Apart(cfg, c.state, ev.path) && !AlreadySynced(cfg, c.state, ev)
  }

  lemma {:induction false} BouncesOn(cfg: Config, env: Env, c: System, n: nat)
    requires Bouncing(cfg, c)
    ensures Bouncing(cfg, Bounced(cfg, env, c, n))
    ensures Step(cfg, env, Bounced(cfg, env, c, n), Bounced(cfg, env, c, n + 1))
  {
    hide Process, AlreadySynced, Apart, Visible, AllWrites, Step;
    if n > 0 {
      BouncesOn(cfg, env, c, n - 1);
      var before := Bounced(cfg, env, c, n - 1);
      BounceOnce(cfg, env, before.state, before.pending[|c.pending| - 1]);
    }
    var b, k := Bounced(cfg, env, c, n), |c.pending| - 1;
    BounceStep(cfg, env, b, k);
  }

  lemma BounceStep(cfg: Config, env: Env, b: System, k: nat)
    requires Bouncing(cfg, b) && k == |b.pending| - 1
    ensures var o := Process(cfg, env, b.state, b.pending[k]);
      Step(cfg, env, b, System(o.state, b.pending[..k] + [EchoOf(o.state, b.pending[k])], b.log + AllWrites(b.state, o)))
  {
    hide Process, AlreadySynced, Apart, Visible, Step, Unlisted;
    var e := b.pending[k];
    BounceOnce(cfg, env, b.state, e);
    var o := Process(cfg, env, b.state, e);
    assert (e.side.Opposite(), e.path) in AllWrites(b.state, o);
    StepWithEcho(cfg, env, b, k, EchoOf(o.state, e));
    assert b.pending[k + 1..] == [];
    assert b.pending[..k] + [] + [EchoOf(o.state, e)] == b.pending[..k] + [EchoOf(o.state, e)];
  }

  lemma BouncingIsEndless(cfg: Config, env: Env, c: System)
    requires Bouncing(cfg, c)
    ensures Endless(cfg, env, c)
  {
    hide Step, Bouncing;
    BouncingParts(cfg, c);
    var run: nat -> System := (n: nat) => Bounced(cfg, env, c, n);
    forall n: nat ensures Step(cfg, env, run(n), run(n + 1)) {
      BouncesOn(cfg, env, c, n);
    }
    assert run(0) == c;
  }

  lemma BouncingParts(cfg: Config, c: System)
    requires Bouncing(cfg, c)
    ensures c.pending != [] && c.pending[|c.pending| - 1].kind == Attrib
  {
    hide AlreadySynced, Apart, Visible;
  }

  // When it stops: the first answer writes nothing, or settles the path, or meets a special file.

  /** No pending event changes anything any more. */
  ghost predicate Spent(cfg: Config, env: Env, c: System) {
    forall e :: e in c.pending ==>
      e.kind != Move && Process(cfg, env, c.state, e).state == c.state && Process(cfg, env, c.state, e).writes == []
  }

  lemma SpentStep(cfg: Config, env: Env, c: System, c': System)
    requires Spent(cfg, env, c) && Step(cfg, env, c, c')
    ensures Spent(cfg, env, c') && |c'.pending| < |c.pending|
  {
    hide Process, AllWrites;
    var i :| 0 <= i < |c.pending| && c.pending[i].kind != Move &&
      (Drops(c, c', i) || exists echoes :: Handles(cfg, env, c, c', i, echoes));
    Without(c.pending, i);
    assert c.pending[i] in c.pending;
    if !Drops(c, c', i) {
      var echoes :| Handles(cfg, env, c, c', i, echoes);
      AllListed(c.state, Process(cfg, env, c.state, c.pending[i]), SideA);
      NoEchoes(cfg, echoes, c'.state);
    }
  }

  lemma SpentEnds(cfg: Config, env: Env, run: nat -> System, n: nat) returns (m: nat)
    requires Spent(cfg, env, run(n))
    ensures m >= n && !Step(cfg, env, run(m), run(m + 1))
    decreases |run(n).pending|
  {
    hide Spent, Step;
    if !Step(cfg, env, run(n), run(n + 1)) {
      m := n;
    } else {
      SpentStep(cfg, env, run(n), run(n + 1));
      m := SpentEnds(cfg, env, run, n + 1);
    }
  }

  predicate DestinationSpecial(s: State, ev: Event) {
    ev.path in s.Of(ev.side.Opposite()).disk && s.Of(ev.side.Opposite()).disk[ev.path].Special?
  }

  /** What a single attribute event comes to, if the two sides are not apart or it is recognised. */
  lemma AttribSpends(cfg: Config, env: Env, s: State, ev: Event)
    requires ev.kind == Attrib && (!Apart(cfg, s, ev.path) || AlreadySynced(cfg, s, ev))
    ensures var o, p := Process(cfg, env, s, ev), ev.path;
      || o.writes == []
      || (p in s.a.disk && p in s.b.disk && SameDigests(cfg, s, p))
      || (DestinationSpecial(o.state, ev) && o.writes == [(ev.side.Opposite(), p)])
  {
    hide AlreadySynced, SameDigests, EntryFor;
  }

  /** An attribute event reports all it writes. */
  lemma AttribListed(cfg: Config, env: Env, s: State, ev: Event)
    requires ev.kind == Attrib
    ensures AllWrites(s, Process(cfg, env, s, ev)) == Process(cfg, env, s, ev).writes
  {
    hide AlreadySynced, EntryFor, AllWrites;
    AllListed(s, Process(cfg, env, s, ev), ev.side);
  }

  lemma OneEventStep(cfg: Config, env: Env, s: State, ev: Event, c': System)
    requires ev.kind == Attrib && Step(cfg, env, System(s, [ev], []), c')
    requires var o := Process(cfg, env, s, ev);
      o.writes == [] || (DestinationSpecial(o.state, ev) && o.writes == [(ev.side.Opposite(), ev.path)])
    ensures Spent(cfg, env, c')
  {
    hide Process, Visible, AllWrites;
    var c := System(s, [ev], []);
    if !Drops(c, c', 0) {
      var echoes :| Handles(cfg, env, c, c', 0, echoes);
      assert c'.pending == echoes;
      var o := Process(cfg, env, s, ev);
      AttribListed(cfg, env, s, ev);
      if o.writes == [] {
        NoEchoes(cfg, echoes, o.state);
      } else {
        forall e | e in echoes
          ensures e.kind != Move && Process(cfg, env, c'.state, e).state == c'.state
          ensures Process(cfg, env, c'.state, e).writes == []
        {
          SpecialIsLeft(cfg, env, c'.state, e);
        }
      }
    } else {
      assert c'.pending == [];
    }
  }

  lemma SpecialIsLeft(cfg: Config, env: Env, s: State, e: Event)
    requires e.kind in {Create, Modify, Attrib} && e.path in s.Of(e.side).disk && s.Of(e.side).disk[e.path].Special?
    ensures Process(cfg, env, s, e) == Done(s, [])
  {
    hide AlreadySynced;
  }

  lemma AttribIsSound(cfg: Config, env: Env, s: State, ev: Event)
    requires SavedExcluded(cfg) && Tree(s.a.disk) && Tree(s.b.disk)
    requires ev.kind == Attrib && !ev.isDir && Visible(cfg, ev.path)
    requires ev.path in s.a.disk && ev.path in s.b.disk && SameDigests(cfg, s, ev.path)
    ensures Sound(cfg, env, System(s, [ev], []))
  {
    hide Tree, Visible, DigestOf;
    SameDigestSameLink(cfg, s.a.disk[ev.path], s.b.disk[ev.path]);
  }

  lemma SameDigestsNoDir(cfg: Config, s: State, p: Path)
    requires p in s.a.disk && p in s.b.disk && SameDigests(cfg, s, p)
    ensures !DirAt(s, SideA, p) && !DirAt(s, SideB, p)
  {
    SameDigestSameLink(cfg, s.a.disk[p], s.b.disk[p]);
  }

  lemma AttribRunEnds(cfg: Config, env: Env, s: State, ev: Event, run: nat -> System)
    requires ev.kind == Attrib && run(0) == System(s, [ev], [])
    requires var o := Process(cfg, env, s, ev);
      o.writes == [] || (DestinationSpecial(o.state, ev) && o.writes == [(ev.side.Opposite(), ev.path)])
    ensures exists n: nat :: !Step(cfg, env, run(n), run(n + 1))
  {
    hide Step, Process, Spent;
    if Step(cfg, env, run(0), run(1)) {
      OneEventStep(cfg, env, s, ev, run(1));
      var n := SpentEnds(cfg, env, run, 1);
    }
  }

  /**
   * Exactly when one attribute event can keep the two sides busy for ever: both hold something there that
   * their digests do not show to be the same, and the table does not already vouch for the source.
   */
  lemma AttribLoopsExactly(cfg: Config, env: Env, s: State, ev: Event)
    requires SavedExcluded(cfg) && Tree(s.a.disk) && Tree(s.b.disk)
    requires ev.kind == Attrib && ev.isDir == DirAt(s, ev.side, ev.path) && Visible(cfg, ev.path)
    ensures Endless(cfg, env, System(s, [ev], [])) <==> Apart(cfg, s, ev.path) && !AlreadySynced(cfg, s, ev)
  {
    hide Step, AlreadySynced, Visible, Tree, Process, Apart, SameDigests, Sound;
    var c := System(s, [ev], []);
    if Apart(cfg, s, ev.path) && !AlreadySynced(cfg, s, ev) {
      assert Bouncing(cfg, c);
      BouncingIsEndless(cfg, env, c);
    } else {
      AttribSpends(cfg, env, s, ev);
      if ev.path in s.a.disk && ev.path in s.b.disk && SameDigests(cfg, s, ev.path) {
        SameDigestsNoDir(cfg, s, ev.path);
        AttribIsSound(cfg, env, s, ev);
        EveryRunEnds(cfg, env, c);
      } else {
        forall run: nat -> System | run(0) == c ensures exists n: nat :: !Step(cfg, env, run(n), run(n + 1)) {
          AttribRunEnds(cfg, env, s, ev, run);
        }
      }
    }
  }

  lemma DirsAreApart(cfg: Config, s: State, ev: Event)
    requires ev.kind == Attrib && BothDirs(s, ev.path) && DirRowsPlain(s, ev.path)
    ensures Apart(cfg, s, ev.path) && !AlreadySynced(cfg, s, ev)
  {
    hide Unchanged;
  }

  /** Attributes of a directory both sides have: always such a case, whatever its permissions. */
  lemma DirAttribsLoop(cfg: Config, env: Env, s: State, ev: Event)
    requires ev.kind == Attrib && Visible(cfg, ev.path) && BothDirs(s, ev.path) && DirRowsPlain(s, ev.path)
    ensures Endless(cfg, env, System(s, [ev], []))
  {
    hide Visible, Endless, Apart, AlreadySynced;
    DirsAreApart(cfg, s, ev);
    BouncingIsEndless(cfg, env, System(s, [ev], []));
  }

  // ------------------------------------------------------ directories made on the way

  /** Below the directory q, which the other side has not got, the copy of p put nothing but its way to p. */
  ghost predicate WayTo(d: Disk, q: Path, p: Path) {
    && q in d && d[q].Dir? && Under(p, q) && p in d && Carries(d[p])
    && forall x :: x in d && AtOrUnder(x, q) && x != p ==> d[x].Dir?
  }

  /** A file copied to where directories are missing. */
  lemma CopyMakesDirs(d: Disk, p: Path, q: Path, n: Node)
    requires Tree(d) && ParentsFree(d, p) && Under(p, q) && q !in d && Carries(n)
    ensures WayTo(MkdirParents(d, p, DEFAULT_MODE)[p := n], q, p)
  {
    var d' := MkdirParents(d, p, DEFAULT_MODE)[p := n];
    forall x ensures x in Ancestors(p) <==> Under(p, x) {
      AncestorsAreAbove(p, x);
    }
    assert forall x :: AtOrUnder(x, q) ==> x !in d;
  }

  lemma CopyDone(cfg: Config, s: State, src: Side, p: Path, at: Stamp)
    requires p in s.Of(src).disk && Carries(s.Of(src).disk[p])
    requires p !in s.Of(src.Opposite()).disk && ParentsFree(s.Of(src.Opposite()).disk, p)
    ensures var t, d := PropagateFile(cfg, s, src, p, at).state, s.Of(src.Opposite()).disk;
      && t.Of(src).disk == s.Of(src).disk && RowsElsewhereKept(s, t, p)
      && t.Of(src.Opposite()).disk == MkdirParents(d, p, DEFAULT_MODE)[p := s.Of(src).disk[p]]
  {
    hide EntryFor, MkdirParents, ParentsFree, ResolveConflict;
    PropagateKeepsRows(cfg, s, src, p, at);
  }

  /** The first step: the missing directory is there, and was not reported. */
  lemma FirstStep(cfg: Config, env: Env, s: State, e: Event) returns (q: Path)
    requires !e.isDir && FilesAt(s, e.path) && Tree(s.a.disk) && Tree(s.b.disk) && MakesDirs(cfg, s, e)
    ensures var o, dst := Process(cfg, env, s, e), e.side.Opposite();
      && Under(e.path, q) && q !in s.Of(dst).disk
      && o.state.Of(e.side).disk == s.Of(e.side).disk && RowsElsewhereKept(s, o.state, e.path)
      && WayTo(o.state.Of(dst).disk, q, e.path) && (dst, q) in AllWrites(s, o)
  {
    hide Tree, AlreadySynced, ParentsFree, PropagateFile, RowsElsewhereKept, WayTo, MkdirParents;
    var src, p, dst := e.side, e.path, e.side.Opposite();
    q := MissingAbove(s.Of(dst).disk, p);
    NotThereEither(s.Of(dst).disk, p);
    var o := Process(cfg, env, s, e);
    assert o == PropagateFile(cfg, s, src, p, env.clock(p));
    CopyDone(cfg, s, src, p, env.clock(p));
    CopyMakesDirs(s.Of(dst).disk, p, q, s.Of(src).disk[p]);
    Reported(s, o, dst, q, p);
  }

  lemma MissingAbove(d: Disk, p: Path) returns (q: Path)
    requires ParentsFree(d, p) && !HasParents(d, p)
    ensures Under(p, q) && q !in d
  {
    q :| Under(p, q) && !(q in d && d[q].Dir?);
    AncestorsAreAbove(p, q);
  }

  lemma NotThereEither(d: Disk, p: Path)
    requires Tree(d) && !HasParents(d, p)
    ensures p !in d
  {
  }

  lemma Reported(s: State, o: Outcome, side: Side, q: Path, p: Path)
    requires q !in s.Of(side).disk && WayTo(o.state.Of(side).disk, q, p)
    ensures (side, q) in AllWrites(s, o)
  {
  }

  /** Rows of directories have no digest, as the engine records them. */
  ghost predicate PlainRows(s: State) {
    && (forall x :: x in s.a.rows && s.a.rows[x].isDir ==> s.a.rows[x].digest.IsZero())
    && (forall x :: x in s.b.rows && s.b.rows[x].isDir ==> s.b.rows[x].digest.IsZero())
  }

  /** The second step: the event of the new directory copies it back, over the directory it was made after. */
  lemma SecondStep(cfg: Config, env: Env, s: State, e: Event, q: Path, p: Path)
    requires e.kind == Create && e.isDir && e.path == q && !Excluded(cfg.exclude, q)
    requires WayTo(s.Of(e.side).disk, q, p)
    requires var to := s.Of(e.side.Opposite()).disk; Tree(to) && p in to && !to[p].Dir?
    requires var rows := s.Of(e.side).rows; q in rows && rows[q].isDir ==> rows[q].digest.IsZero()
    ensures var o := Process(cfg, env, s, e);
      o.writes == [(e.side.Opposite(), q)] && BothDirs(o.state, q) && DirRowsPlain(o.state, q)
  {
    hide Tree, Excluded, CopyTree, RecordSubtree, RecordPair, EntryFor, HasEntries;
    var from, to := s.Of(e.side).disk, s.Of(e.side.Opposite()).disk;
    NewDirNotSynced(cfg, s, e);
    hide AlreadySynced;
    WayHasEntries(from, q, p);
    BackAbove(to, q, p);
    BackFits(from, to, q, p);
    CopiedBack(cfg, s, e.side, q);
  }

  lemma NewDirNotSynced(cfg: Config, s: State, e: Event)
    requires e.kind == Create && e.path in s.Of(e.side).disk && s.Of(e.side).disk[e.path].Dir?
    requires var rows := s.Of(e.side).rows; e.path in rows && rows[e.path].isDir ==> rows[e.path].digest.IsZero()
    ensures !AlreadySynced(cfg, s, e)
  {
  }

  lemma WayHasEntries(d: Disk, q: Path, p: Path)
    requires WayTo(d, q, p)
    ensures HasEntries(d, q)
  {
  }

  lemma BackAbove(to: Disk, q: Path, p: Path)
    requires Tree(to) && p in to && Under(p, q)
    ensures q in to && to[q].Dir? && ParentsFree(to, q)
  {
    forall x | x in Ancestors(q) && x in to ensures to[x].Dir? {
      AncestorsAreAbove(q, x);
    }
  }

  lemma BackFits(from: Disk, to: Disk, q: Path, p: Path)
    requires WayTo(from, q, p) && p in to && !to[p].Dir?
    ensures !DirectoryInTheWay(from, q, to, q)
  {
    hide Rebase;
    forall x | AtOrUnder(x, q) ensures Rebase(x, q, q) == x {
      RebaseInPlace(x, q);
    }
  }

  lemma CopiedBack(cfg: Config, s: State, src: Side, q: Path)
    requires var from, to := s.Of(src).disk, s.Of(src.Opposite()).disk;
      && q in from && from[q].Dir? && HasEntries(from, q) && q in to && to[q].Dir?
      && ParentsFree(to, q) && !DirectoryInTheWay(from, q, to, q)
    requires !Excluded(cfg.exclude, q)
    ensures var o := PropagateDir(cfg, s, src, q);
      o.writes == [(src.Opposite(), q)] && BothDirs(o.state, q) && DirRowsPlain(o.state, q)
  {
    hide HasEntries, Excluded, DirectoryInTheWay, ParentsFree, MkdirParents, Images;
    var from, to := s.Of(src).disk, s.Of(src.Opposite()).disk;
    ImagesAreRebased(from, q, q, q);
    RebaseInPlace(q, q);
    var d := CopyTree(from, q, to, q).value;
    assert q in d && d[q].Dir?;
    hide CopyTree;
    RecordedDir(cfg, s.WithDisk(src.Opposite(), d), q);
  }

  lemma RecordedDir(cfg: Config, t: State, q: Path)
    requires BothDirs(t, q) && !Excluded(cfg.exclude, q)
    ensures RecordPair(cfg, t, q).Success?
    ensures var u := RecordSubtree(cfg, RecordPair(cfg, t, q).value, q); BothDirs(u, q) && DirRowsPlain(u, q)
  {
    hide Excluded;
  }

  /** Visible paths are clean, as a walk below the roots gives them. */
  ghost predicate CleanPaths(cfg: Config, s: State) {
    forall x :: Present(s, x) && !Excluded(cfg.exclude, x) ==> Clean(x)
  }

  lemma AboveIsVisible(cfg: Config, s: State, side: Side, p: Path, q: Path)
    requires CleanPaths(cfg, s) && Visible(cfg, p) && Tree(s.Of(side).disk) && p in s.Of(side).disk && Under(p, q)
    ensures Visible(cfg, q) && q != p
  {
    hide Excluded, Clean;
    if Excluded(cfg.exclude, q) { ExcludedBelow(cfg.exclude, p, q); }
  }

  /**
   * One event of a file that makes a directory is enough. The event of that directory copies it back, and
   * the attribute event of the directory so written is answered for ever.
   */
  lemma MadeDirLoops(cfg: Config, env: Env, c: System, i: nat)
    requires i < |c.pending| && Tree(c.state.a.disk) && Tree(c.state.b.disk)
    requires CleanPaths(cfg, c.state) && PlainRows(c.state)
    requires var e := c.pending[i];
      !e.isDir && Visible(cfg, e.path) && FilesAt(c.state, e.path) && MakesDirs(cfg, c.state, e)
    ensures Endless(cfg, env, c)
  {
    hide Tree, CleanPaths, Visible, Process, AllWrites, Step, Endless, WayTo, RowsElsewhereKept, BothDirs, DirRowsPlain,
      PlainRows, AlreadySynced, ParentsFree, HasParents;
    var e := c.pending[i];
    var s, p, src, dst := c.state, e.path, e.side, e.side.Opposite();
    var q := FirstStep(cfg, env, s, e);
    AboveIsVisible(cfg, s, src, p, q);
    var o := Process(cfg, env, s, e);
    var back := Event(dst, Create, q, "", true);
    WayIsDir(o.state.Of(dst).disk, q, p);
    assert EchoesOf(cfg, [back], o.state, AllWrites(s, o));
    StepWithEcho(cfg, env, c, i, back);
    var others := c.pending[..i] + c.pending[i + 1..];
    var c1 := System(o.state, others + [back], c.log + AllWrites(s, o));
    PlainAt(s, o.state, dst, p, q);
    VisibleNotExcluded(cfg, q);
    SecondStep(cfg, env, o.state, back, q, p);
    MadeDirBounces(cfg, env, c1, others, back, q);
    OneStepMore(cfg, env, c, c1);
  }

  lemma WayIsDir(d: Disk, q: Path, p: Path)
    requires WayTo(d, q, p)
    ensures q in d && d[q].Dir?
  {
  }

  lemma VisibleNotExcluded(cfg: Config, q: Path)
    requires Visible(cfg, q)
    ensures !Excluded(cfg.exclude, q)
  {
    hide Clean, Excluded;
  }

  lemma PlainAt(s: State, t: State, side: Side, p: Path, q: Path)
    requires PlainRows(s) && RowsElsewhereKept(s, t, p) && q != p
    ensures var rows := t.Of(side).rows; q in rows && rows[q].isDir ==> rows[q].digest.IsZero()
  {
    assert Sync.Find(t.a.rows, q) == Sync.Find(s.a.rows, q) && Sync.Find(t.b.rows, q) == Sync.Find(s.b.rows, q);
  }

  lemma MadeDirBounces(cfg: Config, env: Env, c: System, others: seq<Event>, back: Event, q: Path)
    requires c.pending == others + [back] && back.kind != Move && Visible(cfg, q)
    requires var o := Process(cfg, env, c.state, back);
      o.writes == [(back.side.Opposite(), q)] && BothDirs(o.state, q) && DirRowsPlain(o.state, q)
    ensures Endless(cfg, env, c)
  {
    hide Visible, Process, Step, Endless, DirRowsPlain, Apart, AlreadySynced, Unlisted;
    var o := Process(cfg, env, c.state, back);
    var touch := Event(back.side.Opposite(), Attrib, q, "", true);
    assert c.pending[|others|] == back;
    assert EchoesOf(cfg, [touch], o.state, AllWrites(c.state, o));
    StepWithEcho(cfg, env, c, |others|, touch);
    assert c.pending[..|others|] + c.pending[|others| + 1..] == others;
    var c1 := System(o.state, others + [touch], c.log + AllWrites(c.state, o));
    DirsAreApart(cfg, o.state, touch);
    assert c1.pending[|c1.pending| - 1] == touch;
    assert Bouncing(cfg, c1);
    BouncingIsEndless(cfg, env, c1);
    OneStepMore(cfg, env, c, c1);
  }

  // ------------------------------------------------------------------ a user's edits

  /** Files or links just created or modified, in places the other side may lack. */
  ghost predicate Edits(cfg: Config, env: Env, s: State, events: seq<Event>) {
    forall e :: e in events ==>
      && (e.kind == Create || e.kind == Modify) && !e.isDir && Visible(cfg, e.path) && FilesAt(s, e.path)
      && NamesFree(s.a.disk, e.path, env.clock(e.path)) && NamesFree(s.b.disk, e.path, env.clock(e.path))
  }

  lemma EditsAreSound(cfg: Config, env: Env, s: State, events: seq<Event>)
    requires SavedExcluded(cfg) && Tree(s.a.disk) && Tree(s.b.disk) && Edits(cfg, env, s, events)
    requires forall e :: e in events ==> !MakesDirs(cfg, s, e)
    ensures Sound(cfg, env, System(s, events, []))
  {
    hide Visible, NamesFree, Tree, FilesAt, Settled, SameDigests, MakesDirs;
  }

  /**
   * Exactly when a user's edits can start an exchange without end: one of them, its file still there and
   * not recognised, is to be copied to where the other side lacks a directory.
   */
  lemma EditsLoopExactly(cfg: Config, env: Env, s: State, events: seq<Event>)
    requires SavedExcluded(cfg) && Tree(s.a.disk) && Tree(s.b.disk) && CleanPaths(cfg, s) && PlainRows(s)
    requires Edits(cfg, env, s, events)
    ensures Endless(cfg, env, System(s, events, [])) <==> exists e :: e in events && MakesDirs(cfg, s, e)
  {
    hide Sound, Endless, Tree, CleanPaths, PlainRows, MakesDirs, Visible, NamesFree, FilesAt;
    if e :| e in events && MakesDirs(cfg, s, e) {
      var i :| 0 <= i < |events| && events[i] == e;
      MadeDirLoops(cfg, env, System(s, events, []), i);
    } else {
      EditsAreSound(cfg, env, s, events);
      EveryRunEnds(cfg, env, System(s, events, []));
    }
  }

  /** An input: A has a new directory "D" with a file in it, the event of the file comes first, B is empty. */
  lemma NewDirectoryLoops(cfg: Config, env: Env, s: State)
    requires SavedExcluded(cfg) && !Excluded(cfg.exclude, "D") && !Excluded(cfg.exclude, "D/x")
    requires s.a == Replica(map["D" := CaseTwins.FOLDER, "D/x" := Straying.MINE], map[])
    requires s.b == Replica(map[], map[])
    ensures Edits(cfg, env, s, [Event(SideA, Create, "D/x", "", false)])
    ensures Endless(cfg, env, System(s, [Event(SideA, Create, "D/x", "", false)], []))
  {
    hide Clean, Under, Excluded, Endless, NamesFree, Tree;
    var e := Event(SideA, Create, "D/x", "", false);
    CaseTwins.TwinPaths();
    Straying.TreeOfTwo(s.a.disk);
    EmptyTree();
    assert forall x :: x in s.a.disk <==> x == "D" || x == "D/x";
    CaseTwins.VisibleNamesFree(cfg, s.a.disk, "D/x", env.clock("D/x"));
    CaseTwins.VisibleNamesFree(cfg, s.b.disk, "D/x", env.clock("D/x"));
    NewPlace(cfg, s, e);
    assert e in [e];
    EditsLoopExactly(cfg, env, s, [e]);
  }

  lemma EmptyTree()
    ensures Tree(map[])
  {
  }

  lemma NewPlace(cfg: Config, s: State, e: Event)
    requires e.kind == Create && e.path == "D/x" && e.side == SideA && "D/x" in s.a.disk && s.b == Replica(map[], map[])
    ensures MakesDirs(cfg, s, e)
  {
    hide Clean, Under;
    CaseTwins.TwinPaths();
    assert Under("D/x", "D");
  }
}
