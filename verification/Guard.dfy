// internal/guard/guard.go: which events are echoes of the engine's own writes.

module Expectations {
  import opened Events
  import opened Options
  import opened Paths

  datatype Key = Key(side: Side, path: Path)
  datatype Expectation = Expectation(expires: int, count: int)
  datatype Subtree = Subtree(side: Side, prefix: Path, expires: int)

  datatype Memory = Memory(seen: map<Key, Expectation>, subtrees: seq<Subtree>, matched: int, expired: int)

  const EMPTY := Memory(map[], [], 0, 0)

  /** The counters are uint64. */
  function Count64(x: int): int { x % 0x1_0000_0000_0000_0000 }

  predicate UnderPrefix(path: Path, prefix: Path) {
    prefix == "." || prefix == "" || AtOrUnder(path, prefix)
  }

  // ------------------------------------------------------------------ the operations

  /** The clock is read once to see whether the old expectation is over, and again for the new deadline. */
  function Expect(m: Memory, side: Side, path: Path, events: int, ttl: int, t1: int, t2: int): Memory {
    var k := Key(side, path);
    var before := if k in m.seen && !(m.seen[k].expires < t1) then m.seen[k].count else 0;
    m.(seen := m.seen[k := Expectation(t2 + ttl, before + if events <= 0 then 1 else events)])
  }

  predicate Names(st: Subtree, side: Side, prefix: Path) {
    st.side == side && st.prefix == prefix
  }

  /** The first subtree of that name gets the new deadline. */
  function Renewed(subtrees: seq<Subtree>, side: Side, prefix: Path, expires: int): seq<Subtree> {
    if subtrees == [] then [Subtree(side, prefix, expires)]
    else if Names(subtrees[0], side, prefix) then [subtrees[0].(expires := expires)] + subtrees[1..]
    else [subtrees[0]] + Renewed(subtrees[1..], side, prefix, expires)
  }

  function ExpectSubtree(m: Memory, side: Side, prefix: Path, ttl: int, t: int): Memory {
    m.(subtrees := Renewed(m.subtrees, side, prefix, t + ttl))
  }

  function Without(subtrees: seq<Subtree>, side: Side, prefix: Path): seq<Subtree> {
    if subtrees == [] then []
    else
      var init, last := subtrees[..|subtrees| - 1], subtrees[|subtrees| - 1];
      if Names(last, side, prefix) then Without(init, side, prefix) else Without(init, side, prefix) + [last]
  }

  function ForgetSubtree(m: Memory, side: Side, prefix: Path): Memory {
    m.(subtrees := Without(m.subtrees, side, prefix))
  }

  function Forget(m: Memory, side: Side, path: Path): Memory {
    m.(seen := m.seen - {Key(side, path)})
  }

  /** The search for an exact expectation: what it leaves behind, and the key it spent. */
  datatype Search = Search(seen: map<Key, Expectation>, expired: int, hit: Option<Key>)

  function Exact(m: Memory, side: Side, paths: seq<Path>, now: int): Search {
    if paths == [] then Search(m.seen, m.expired, None)
    else
      var before := Exact(m, side, paths[..|paths| - 1], now);
      var k := Key(side, paths[|paths| - 1]);
      if before.hit.Some? || k !in before.seen then before
      else if before.seen[k].expires < now then Search(before.seen - {k}, Count64(before.expired + 1), None)
      else if before.seen[k].count - 1 <= 0 then Search(before.seen - {k}, before.expired, Some(k))
      else Search(before.seen[k := before.seen[k].(count := before.seen[k].count - 1)], before.expired, Some(k))
  }

  predicate Covers(st: Subtree, side: Side, paths: seq<Path>, now: int) {
    st.side == side && !(st.expires < now) && exists p :: p in paths && UnderPrefix(p, st.prefix)
  }

  predicate SubtreeMatches(subtrees: seq<Subtree>, side: Side, paths: seq<Path>, now: int) {
    exists st :: st in subtrees && Covers(st, side, paths, now)
  }

  /** A rename touches both of its paths. */
  function PathsOf(ev: Event): seq<Path> {
    if ev.kind == Move && ev.from != "" then [ev.path, ev.from] else [ev.path]
  }

  datatype Answer = Answer(memory: Memory, suppressed: bool, key: Option<Key>)

  function Consume(m: Memory, ev: Event, now: int): Answer {
    var s := Exact(m, ev.side, PathsOf(ev), now);
    var covered := SubtreeMatches(m.subtrees, ev.side, PathsOf(ev), now);
    var hits := s.hit.Some? || covered;
    Answer(Memory(s.seen, m.subtrees, if hits then Count64(m.matched + 1) else m.matched, s.expired), hits, s.hit)
  }

  function LiveSeen(seen: map<Key, Expectation>, now: int): map<Key, Expectation> {
    map k | k in seen && !(seen[k].expires < now) :: seen[k]
  }

  function LiveSubtrees(subtrees: seq<Subtree>, now: int): seq<Subtree> {
    if subtrees == [] then []
    else
      var init, last := subtrees[..|subtrees| - 1], subtrees[|subtrees| - 1];
      if last.expires < now then LiveSubtrees(init, now) else LiveSubtrees(init, now) + [last]
  }

  function Swept(m: Memory, now: int): int {
    |m.seen| - |LiveSeen(m.seen, now)| + |m.subtrees| - |LiveSubtrees(m.subtrees, now)|
  }

  function Sweep(m: Memory, now: int): Memory {
    Memory(LiveSeen(m.seen, now), LiveSubtrees(m.subtrees, now), m.matched, Count64(m.expired + Swept(m, now)))
  }

  // --------------------------------------------------------------------- a history

  datatype Op =
    | DoExpect(side: Side, path: Path, events: int, t1: int, t2: int)
    | DoExpectSubtree(side: Side, path: Path, t: int)
    | DoForget(side: Side, path: Path)
    | DoForgetSubtree(side: Side, path: Path)
    | DoConsume(ev: Event, t: int)
    | DoSweep(t: int)

  function Apply(m: Memory, op: Op, ttl: int): Memory {
    match op
    case DoExpect(side, path, events, t1, t2) => Expect(m, side, path, events, ttl, t1, t2)
    case DoExpectSubtree(side, path, t) => ExpectSubtree(m, side, path, ttl, t)
    case DoForget(side, path) => Forget(m, side, path)
    case DoForgetSubtree(side, path) => ForgetSubtree(m, side, path)
    case DoConsume(ev, t) => Consume(m, ev, t).memory
    case DoSweep(t) => Sweep(m, t)
  }

  function After(ops: seq<Op>, ttl: int): Memory {
    if ops == [] then EMPTY else Apply(After(ops[..|ops| - 1], ttl), ops[|ops| - 1], ttl)
  }

  /** What Consume answered, in order. */
  function Answers(ops: seq<Op>, ttl: int): seq<bool> {
    if ops == [] then []
    else
      var init, op := ops[..|ops| - 1], ops[|ops| - 1];
      Answers(init, ttl) + if op.DoConsume? then [Consume(After(init, ttl), op.ev, op.t).suppressed] else []
  }

  /** The latest reading of the clock, given one from before. */
  function Latest(ops: seq<Op>, start: int): int {
    if ops == [] then start
    else
      match ops[|ops| - 1]
      case DoExpect(_, _, _, _, t2) => t2
      case DoExpectSubtree(_, _, t) => t
      case DoConsume(_, t) => t
      case DoSweep(t) => t
      case DoForget(_, _) => Latest(ops[..|ops| - 1], start)
      case DoForgetSubtree(_, _) => Latest(ops[..|ops| - 1], start)
  }

  predicate ClockHolds(op: Op, from: int) {
    match op
    case DoExpect(_, _, _, t1, t2) => from <= t1 <= t2
    case DoExpectSubtree(_, _, t) => from <= t
    case DoConsume(_, t) => from <= t
    case DoSweep(t) => from <= t
    case DoForget(_, _) => true
    case DoForgetSubtree(_, _) => true
  }

  /** The clock never runs backwards. */
  predicate Timely(ops: seq<Op>, start: int) {
    ops == [] || (Timely(ops[..|ops| - 1], start) && ClockHolds(ops[|ops| - 1], Latest(ops[..|ops| - 1], start)))
  }

  /** The same history without its sweeps. */
  function Unswept(ops: seq<Op>): seq<Op> {
    if ops == [] then []
    else
      var rest := Unswept(ops[..|ops| - 1]);
      if ops[|ops| - 1].DoSweep? then rest else rest + [ops[|ops| - 1]]
  }

  // ----------------------------------------------------------- sweeping is invisible

  /** The expectation for k, if it is still alive. */
  function Live(seen: map<Key, Expectation>, k: Key, now: int): Option<Expectation> {
    if k in seen && !(seen[k].expires < now) then Some(seen[k]) else None
  }

  /** Nothing alive tells the two apart. */
  ghost predicate Alike(m: Memory, n: Memory, now: int) {
    && (forall k :: Live(m.seen, k, now) == Live(n.seen, k, now))
    && (forall st: Subtree :: !(st.expires < now) ==> (st in m.subtrees <==> st in n.subtrees))
  }

  predicate OneEach(subtrees: seq<Subtree>) {
    forall i, j :: 0 <= i < j < |subtrees| ==> !Names(subtrees[i], subtrees[j].side, subtrees[j].prefix)
  }

  lemma {:induction false} RenewedHolds(subtrees: seq<Subtree>, side: Side, prefix: Path, expires: int)
    requires OneEach(subtrees)
    ensures var r := Renewed(subtrees, side, prefix, expires);
      OneEach(r) && forall st :: st in r <==> st == Subtree(side, prefix, expires) || (st in subtrees && !Names(st, side, prefix))
  {
    if subtrees != [] {
      hide OneEach, Names;
      var rest := subtrees[1..];
      assert subtrees == [subtrees[0]] + rest;
      TailIsOneEach(subtrees[0], rest);
      if Names(subtrees[0], side, prefix) {
        HeadRenewed(subtrees[0], rest, side, prefix, expires);
      } else {
        RenewedHolds(rest, side, prefix, expires);
        NewHead(subtrees[0], rest, Renewed(rest, side, prefix, expires), side, prefix, expires);
      }
    }
  }

  lemma TailIsOneEach(head: Subtree, rest: seq<Subtree>)
    requires OneEach([head] + rest)
    ensures OneEach(rest) && forall st :: st in rest ==> !Names(head, st.side, st.prefix)
  {
    var all := [head] + rest;
    assert forall i, j :: 0 <= i < j < |rest| ==> rest[i] == all[i + 1] && rest[j] == all[j + 1];
    forall j | 0 <= j < |rest| ensures !Names(head, rest[j].side, rest[j].prefix) {
      assert !Names(all[0], all[j + 1].side, all[j + 1].prefix);
    }
  }

  lemma HeadRenewed(head: Subtree, rest: seq<Subtree>, side: Side, prefix: Path, expires: int)
    requires OneEach(rest) && Names(head, side, prefix) && forall st :: st in rest ==> !Names(head, st.side, st.prefix)
    ensures var r := [head.(expires := expires)] + rest;
      OneEach(r) && forall st :: st in r <==> st == Subtree(side, prefix, expires) || (st in [head] + rest && !Names(st, side, prefix))
  {
  }

  lemma NewHead(head: Subtree, rest: seq<Subtree>, r: seq<Subtree>, side: Side, prefix: Path, expires: int)
    requires OneEach([head] + rest) && OneEach(r) && !Names(head, side, prefix)
    requires forall st :: st in r <==> st == Subtree(side, prefix, expires) || (st in rest && !Names(st, side, prefix))
    ensures OneEach([head] + r)
  {
    forall st | st in r ensures !Names(head, st.side, st.prefix) {
      if st in rest {
        var j :| 0 <= j < |rest| && rest[j] == st;
        var all := [head] + rest;
        assert !Names(all[0], all[j + 1].side, all[j + 1].prefix);
      }
    }
  }

  lemma {:induction false} WithoutHolds(subtrees: seq<Subtree>, side: Side, prefix: Path)
    requires OneEach(subtrees)
    ensures var r := Without(subtrees, side, prefix);
      OneEach(r) && forall st :: st in r <==> st in subtrees && !Names(st, side, prefix)
  {
    if subtrees != [] {
      var init, last := subtrees[..|subtrees| - 1], subtrees[|subtrees| - 1];
      assert subtrees == init + [last];
      WithoutHolds(init, side, prefix);
      LastDiffers(init, last, Without(init, side, prefix));
    }
  }

  lemma LastDiffers(init: seq<Subtree>, last: Subtree, r: seq<Subtree>)
    requires OneEach(init + [last]) && OneEach(r) && forall st :: st in r ==> st in init
    ensures OneEach(r + [last])
  {
    forall st | st in r ensures !Names(st, last.side, last.prefix) {
      var i :| 0 <= i < |init| && init[i] == st;
      assert (init + [last])[i] == st && (init + [last])[|init|] == last;
    }
  }

  lemma {:induction false} LiveSubtreesHolds(subtrees: seq<Subtree>, now: int)
    requires OneEach(subtrees)
    ensures var r := LiveSubtrees(subtrees, now);
      OneEach(r) && forall st :: st in r <==> st in subtrees && !(st.expires < now)
  {
    if subtrees != [] {
      var init, last := subtrees[..|subtrees| - 1], subtrees[|subtrees| - 1];
      assert subtrees == init + [last];
      LiveSubtreesHolds(init, now);
      LastDiffers(init, last, LiveSubtrees(init, now));
    }
  }

  /** Two searches see the same live expectations, so they spend the same one. */
  lemma {:induction false} ExactAlike(m: Memory, n: Memory, side: Side, paths: seq<Path>, now: int)
    requires forall k :: Live(m.seen, k, now) == Live(n.seen, k, now)
    ensures var s, t := Exact(m, side, paths, now), Exact(n, side, paths, now);
      s.hit == t.hit && forall k :: Live(s.seen, k, now) == Live(t.seen, k, now)
  {
    if paths != [] {
      ExactAlike(m, n, side, paths[..|paths| - 1], now);
      var s, t := Exact(m, side, paths[..|paths| - 1], now), Exact(n, side, paths[..|paths| - 1], now);
      var k := Key(side, paths[|paths| - 1]);
      assert Live(s.seen, k, now) == Live(t.seen, k, now);
      forall l ensures Live(Exact(m, side, paths, now).seen, l, now) == Live(Exact(n, side, paths, now).seen, l, now) {
        assert Live(s.seen, l, now) == Live(t.seen, l, now);
      }
    }
  }

  lemma LaterAlike(m: Memory, n: Memory, now: int, later: int)
    requires Alike(m, n, now) && now <= later
    ensures Alike(m, n, later)
  {
    forall k ensures Live(m.seen, k, later) == Live(n.seen, k, later) {
      assert Live(m.seen, k, now) == Live(n.seen, k, now);
    }
  }

  lemma ConsumeAlike(m: Memory, n: Memory, ev: Event, now: int)
    requires Alike(m, n, now)
    ensures Consume(m, ev, now).suppressed == Consume(n, ev, now).suppressed
    ensures Consume(m, ev, now).key == Consume(n, ev, now).key
    ensures Alike(Consume(m, ev, now).memory, Consume(n, ev, now).memory, now)
  {
    hide Exact, PathsOf;
    ExactAlike(m, n, ev.side, PathsOf(ev), now);
    SubtreesAlike(m, n, ev.side, PathsOf(ev), now);
  }

  lemma SubtreesAlike(m: Memory, n: Memory, side: Side, paths: seq<Path>, now: int)
    requires Alike(m, n, now)
    ensures SubtreeMatches(m.subtrees, side, paths, now) == SubtreeMatches(n.subtrees, side, paths, now)
  {
    hide UnderPrefix;
  }

  lemma ExpectAlike(m: Memory, n: Memory, side: Side, path: Path, events: int, ttl: int, t1: int, t2: int, now: int)
    requires Alike(m, n, now) && now <= t1 <= t2
    ensures Alike(Expect(m, side, path, events, ttl, t1, t2), Expect(n, side, path, events, ttl, t1, t2), t2)
  {
    LaterAlike(m, n, now, t1);
    LaterAlike(m, n, now, t2);
    assert Live(m.seen, Key(side, path), t1) == Live(n.seen, Key(side, path), t1);
    var m', n' := Expect(m, side, path, events, ttl, t1, t2), Expect(n, side, path, events, ttl, t1, t2);
    forall k ensures Live(m'.seen, k, t2) == Live(n'.seen, k, t2) {
      assert Live(m.seen, k, t2) == Live(n.seen, k, t2);
    }
  }

  lemma SweepAlike(m: Memory, n: Memory, t: int, now: int)
    requires Alike(m, n, now) && now <= t && OneEach(m.subtrees)
    ensures Alike(Sweep(m, t), n, t) && OneEach(Sweep(m, t).subtrees)
  {
    LaterAlike(m, n, now, t);
    LiveSubtreesHolds(m.subtrees, t);
    forall k ensures Live(Sweep(m, t).seen, k, t) == Live(n.seen, k, t) {
      assert Live(m.seen, k, t) == Live(n.seen, k, t);
    }
  }

  lemma ForgetAlike(m: Memory, n: Memory, side: Side, path: Path, now: int)
    requires Alike(m, n, now)
    ensures Alike(Forget(m, side, path), Forget(n, side, path), now)
  {
    forall k ensures Live(Forget(m, side, path).seen, k, now) == Live(Forget(n, side, path).seen, k, now) {
      assert Live(m.seen, k, now) == Live(n.seen, k, now);
    }
  }

  ghost predicate BothAlike(m: Memory, n: Memory, now: int) {
    Alike(m, n, now) && OneEach(m.subtrees) && OneEach(n.subtrees)
  }

  /** Any operation but a sweep leaves two alike memories alike. */
  lemma ApplyAlike(m: Memory, n: Memory, op: Op, ttl: int, now: int)
    requires BothAlike(m, n, now) && ClockHolds(op, now) && !op.DoSweep?
    ensures BothAlike(Apply(m, op, ttl), Apply(n, op, ttl), Latest([op], now))
    ensures op.DoConsume? ==> Consume(m, op.ev, op.t).suppressed == Consume(n, op.ev, op.t).suppressed
  {
    hide OneEach, Alike, Consume, Renewed, Without, Expect, Forget;
    match op {
      case DoExpect(side, path, events, t1, t2) =>
        ExpectAlike(m, n, side, path, events, ttl, t1, t2, now);
        SubtreesKept(m, n, op, ttl);
      case DoExpectSubtree(side, path, t) =>
        RenewedHolds(m.subtrees, side, path, t + ttl);
        RenewedHolds(n.subtrees, side, path, t + ttl);
        LaterAlike(m, n, now, t);
        RenewedAlike(m, n, side, path, ttl, t);
      case DoForget(side, path) =>
        ForgetAlike(m, n, side, path, now);
        SubtreesKept(m, n, op, ttl);
      case DoForgetSubtree(side, path) =>
        WithoutHolds(m.subtrees, side, path);
        WithoutHolds(n.subtrees, side, path);
        WithoutAlike(m, n, side, path, now);
      case DoConsume(ev, t) =>
        LaterAlike(m, n, now, t);
        ConsumeAlike(m, n, ev, t);
        SubtreesKept(m, n, op, ttl);
    }
  }

  lemma SubtreesKept(m: Memory, n: Memory, op: Op, ttl: int)
    requires op.DoExpect? || op.DoForget? || op.DoConsume?
    ensures Apply(m, op, ttl).subtrees == m.subtrees && Apply(n, op, ttl).subtrees == n.subtrees
  {
    hide Exact;
  }

  lemma RenewedAlike(m: Memory, n: Memory, side: Side, path: Path, ttl: int, t: int)
    requires Alike(m, n, t) && OneEach(m.subtrees) && OneEach(n.subtrees)
    ensures Alike(ExpectSubtree(m, side, path, ttl, t), ExpectSubtree(n, side, path, ttl, t), t)
  {
    hide OneEach, Renewed;
    RenewedHolds(m.subtrees, side, path, t + ttl);
    RenewedHolds(n.subtrees, side, path, t + ttl);
    assert forall k :: Live(m.seen, k, t) == Live(n.seen, k, t);
  }

  lemma WithoutAlike(m: Memory, n: Memory, side: Side, path: Path, now: int)
    requires Alike(m, n, now) && OneEach(m.subtrees) && OneEach(n.subtrees)
    ensures Alike(ForgetSubtree(m, side, path), ForgetSubtree(n, side, path), now)
  {
    hide OneEach, Without;
    WithoutHolds(m.subtrees, side, path);
    WithoutHolds(n.subtrees, side, path);
    assert forall k :: Live(m.seen, k, now) == Live(n.seen, k, now);
  }

  lemma LatestOf(ops: seq<Op>, start: int)
    requires ops != []
    ensures Latest(ops, start) == Latest([ops[|ops| - 1]], Latest(ops[..|ops| - 1], start))
  {
    var op := ops[|ops| - 1];
    assert [op][..0] == [] && [op][0] == op;
    assert Latest([], Latest(ops[..|ops| - 1], start)) == Latest(ops[..|ops| - 1], start);
  }

  lemma {:induction false} UnsweptAlike(ops: seq<Op>, ttl: int, start: int)
    requires Timely(ops, start)
    ensures var kept := Unswept(ops);
      && BothAlike(After(ops, ttl), After(kept, ttl), Latest(ops, start))
      && Answers(ops, ttl) == Answers(kept, ttl)
  {
    hide BothAlike, Apply, Consume, ClockHolds;
    if ops == [] {
      EmptyAlike(start);
    } else {
      var init, op := ops[..|ops| - 1], ops[|ops| - 1];
      UnsweptAlike(init, ttl, start);
      LatestOf(ops, start);
      var kept, now := Unswept(init), Latest(init, start);
      if op.DoSweep? {
        SweepStep(After(init, ttl), After(kept, ttl), op, ttl, now);
      } else {
        ApplyAlike(After(init, ttl), After(kept, ttl), op, ttl, now);
        assert (kept + [op])[..|kept|] == kept;
      }
    }
  }

  lemma SweepStep(m: Memory, n: Memory, op: Op, ttl: int, now: int)
    requires BothAlike(m, n, now) && op.DoSweep? && ClockHolds(op, now)
    ensures BothAlike(Apply(m, op, ttl), n, op.t)
  {
    hide Sweep, OneEach, Alike;
    SweepAlike(m, n, op.t, now);
  }

  lemma EmptyAlike(start: int)
    ensures BothAlike(EMPTY, EMPTY, start)
  {
  }

  /**
   * Sweeping is invisible. Two histories that differ only in where they sweep, under a clock that never
   * runs backwards, give every event the same answer.
   */
  lemma SweepIsInvisible(ops: seq<Op>, ops': seq<Op>, ttl: int, start: int)
    requires Timely(ops, start) && Timely(ops', start) && Unswept(ops) == Unswept(ops')
    ensures Answers(ops, ttl) == Answers(ops', ttl)
  {
    UnsweptAlike(ops, ttl, start);
    UnsweptAlike(ops', ttl, start);
  }

  // ------------------------------------------------------------ what Consume answers

  /** The search hits exactly when some path has a live expectation, and dead ones never count. */
  lemma {:induction false} ExactHits(m: Memory, side: Side, paths: seq<Path>, now: int)
    ensures var s := Exact(m, side, paths, now);
      && (s.hit.Some? <==> exists p :: p in paths && Live(m.seen, Key(side, p), now).Some?)
      && (s.hit.None? ==> forall k :: Live(s.seen, k, now) == Live(m.seen, k, now))
  {
    if paths != [] {
      var init, p := paths[..|paths| - 1], paths[|paths| - 1];
      assert paths == init + [p];
      ExactHits(m, side, init, now);
      var before := Exact(m, side, init, now);
      if before.hit.None? {
        assert Live(before.seen, Key(side, p), now) == Live(m.seen, Key(side, p), now);
        forall k | Exact(m, side, paths, now).hit.None?
          ensures Live(Exact(m, side, paths, now).seen, k, now) == Live(m.seen, k, now)
        {
          assert Live(before.seen, k, now) == Live(m.seen, k, now);
        }
      }
    }
  }

  /**
   * An event is taken for an echo exactly when an expectation for one of its paths is alive, or a live
   * subtree of its side covers one of them.
   */
  lemma ConsumeExactly(m: Memory, ev: Event, now: int)
    ensures Consume(m, ev, now).suppressed <==>
      || (exists p :: p in PathsOf(ev) && Live(m.seen, Key(ev.side, p), now).Some?)
      || SubtreeMatches(m.subtrees, ev.side, PathsOf(ev), now)
  {
    hide Exact, PathsOf, SubtreeMatches;
    ExactHits(m, ev.side, PathsOf(ev), now);
  }

  /** What has been announced is recognised: as many events as were granted, until the deadline. */
  lemma {:induction false} AnnouncedIsRecognised(m: Memory, side: Side, path: Path, events: int, ttl: int,
        t1: int, t2: int, evs: seq<Event>, now: int)
    requires forall e :: e in evs ==> e.side == side && e.path == path && e.kind != Move
    requires |evs| <= (if events <= 0 then 1 else events) && now <= t2 + ttl
    requires Key(side, path) in m.seen ==> m.seen[Key(side, path)].count >= 0
    ensures var n := ConsumeAll(Expect(m, side, path, events, ttl, t1, t2), evs, now);
      |n.1| == |evs| && forall i :: 0 <= i < |evs| ==> n.1[i]
    ensures var rest := ConsumeAll(Expect(m, side, path, events, ttl, t1, t2), evs, now).0; var k := Key(side, path);
      |evs| < (if events <= 0 then 1 else events) ==>
        k in rest.seen && !(rest.seen[k].expires < now) && rest.seen[k].count >= (if events <= 0 then 1 else events) - |evs|
  {
    if evs != [] {
      var init, e := evs[..|evs| - 1], evs[|evs| - 1];
      assert e in evs && forall f :: f in init ==> f in evs;
      AnnouncedIsRecognised(m, side, path, events, ttl, t1, t2, init, now);
      var k, before := Key(side, path), ConsumeAll(Expect(m, side, path, events, ttl, t1, t2), init, now).0;
      OneConsumed(before, e, now);
    }
  }

  /** Consuming one event after the other at one time: the memory left and the answers. */
  function ConsumeAll(m: Memory, evs: seq<Event>, now: int): (Memory, seq<bool>) {
    if evs == [] then (m, [])
    else
      var (n, answers) := ConsumeAll(m, evs[..|evs| - 1], now);
      var a := Consume(n, evs[|evs| - 1], now);
      (a.memory, answers + [a.suppressed])
  }

  lemma OneConsumed(m: Memory, e: Event, now: int)
    requires var k := Key(e.side, e.path);
      e.kind != Move && k in m.seen && !(m.seen[k].expires < now) && m.seen[k].count >= 1
    ensures var a, k := Consume(m, e, now), Key(e.side, e.path);
      && a.suppressed
      && (m.seen[k].count > 1 ==>
            k in a.memory.seen && a.memory.seen[k].expires == m.seen[k].expires && a.memory.seen[k].count == m.seen[k].count - 1)
  {
    hide SubtreeMatches, Exact;
    ExactOne(m, e.side, e.path, now);
  }

  lemma ExactOne(m: Memory, side: Side, p: Path, now: int)
    requires var k := Key(side, p); k in m.seen && !(m.seen[k].expires < now)
    ensures var k := Key(side, p);
      Exact(m, side, [p], now) == if m.seen[k].count - 1 <= 0 then Search(m.seen - {k}, m.expired, Some(k))
        else Search(m.seen[k := m.seen[k].(count := m.seen[k].count - 1)], m.expired, Some(k))
  {
    assert [p][..0] == [];
    assert Exact(m, side, [], now) == Search(m.seen, m.expired, None);
  }

  // ------------------------------------------------------- no more than was granted

  /** The events Expect granted to k. */
  function Granted(ops: seq<Op>, k: Key): nat {
    if ops == [] then 0
    else
      var op := ops[|ops| - 1];
      Granted(ops[..|ops| - 1], k)
      + if op.DoExpect? && Key(op.side, op.path) == k then (if op.events <= 0 then 1 else op.events) else 0
  }

  /** The events an exact expectation for k suppressed. */
  function Spent(ops: seq<Op>, ttl: int, k: Key): nat {
    if ops == [] then 0
    else
      var init, op := ops[..|ops| - 1], ops[|ops| - 1];
      Spent(init, ttl, k) + if op.DoConsume? && Consume(After(init, ttl), op.ev, op.t).key == Some(k) then 1 else 0
  }

  predicate Balanced(m: Memory, k: Key, rest: int) {
    0 <= rest && (k in m.seen ==> 1 <= m.seen[k].count <= rest)
  }

  lemma {:induction false} ExactSpends(m: Memory, side: Side, paths: seq<Path>, now: int, k: Key, rest: int)
    requires Balanced(m, k, rest)
    ensures var s := Exact(m, side, paths, now);
      Balanced(m.(seen := s.seen), k, if s.hit == Some(k) then rest - 1 else rest)
  {
    if paths != [] {
      ExactSpends(m, side, paths[..|paths| - 1], now, k, rest);
    }
  }

  lemma ConsumeSpends(m: Memory, ev: Event, now: int, k: Key, rest: int)
    requires Balanced(m, k, rest)
    ensures Balanced(Consume(m, ev, now).memory, k, if Consume(m, ev, now).key == Some(k) then rest - 1 else rest)
  {
    hide Exact, PathsOf, SubtreeMatches;
    ExactSpends(m, ev.side, PathsOf(ev), now, k, rest);
  }

  lemma {:induction false} BalanceHolds(ops: seq<Op>, ttl: int, k: Key)
    ensures Balanced(After(ops, ttl), k, Granted(ops, k) - Spent(ops, ttl, k))
  {
    hide Consume, Renewed, Without, LiveSubtrees, Swept;
    if ops != [] {
      var init, op := ops[..|ops| - 1], ops[|ops| - 1];
      BalanceHolds(init, ttl, k);
      if op.DoConsume? { ConsumeSpends(After(init, ttl), op.ev, op.t, k, Granted(init, k) - Spent(init, ttl, k)); }
    }
  }

  /** In any history, however the clock behaves, exact matches never exceed what was granted. */
  lemma SuppressionsAreGranted(ops: seq<Op>, ttl: int, k: Key)
    ensures Spent(ops, ttl, k) <= Granted(ops, k)
  {
    BalanceHolds(ops, ttl, k);
  }
}

/** The guard as it runs. */
module Guards {
  import opened Events
  import opened Expectations
  import opened Options
  import opened Paths
  import Spec = Expectations

  class Guard {
    const ttl: int
    var seen: map<Key, Expectation>
    var subtrees: seq<Subtree>
    var matched: int
    var expired: int

    constructor (ttl: int)
      ensures this.ttl == ttl && Now() == EMPTY
    {
      this.ttl := ttl;
      seen, subtrees, matched, expired := map[], [], 0, 0;
    }

    function Now(): Memory
      reads this
    {
      Memory(seen, subtrees, matched, expired)
    }

    method Expect(side: Side, path: Path, events: int, t1: int, t2: int)
      modifies this`seen
      ensures Now() == Spec.Expect(old(Now()), side, path, events, ttl, t1, t2)
    {
      var granted := if events <= 0 then 1 else events;
      var k := Key(side, path);
      if k !in seen || seen[k].expires < t1 {
        seen := seen[k := Expectation(0, 0)];
      }
      seen := seen[k := seen[k].(count := seen[k].count + granted)];
      seen := seen[k := seen[k].(expires := t2 + ttl)];
    }

    method ExpectSubtree(side: Side, prefix: Path, t: int)
      modifies this`subtrees
      ensures Now() == Spec.ExpectSubtree(old(Now()), side, prefix, ttl, t)
    {
      hide Renewed, Names;
      var expires := t + ttl;
      ghost var all := subtrees;
      RenewedFromStart(all, side, prefix, expires);
      for i := 0 to |subtrees|
        invariant subtrees == all
        invariant Renewed(all, side, prefix, expires) == all[..i] + Renewed(all[i..], side, prefix, expires)
      {
        if Names(subtrees[i], side, prefix) {
          subtrees := subtrees[i := subtrees[i].(expires := expires)];
          RenewedHere(all, i, side, prefix, expires);
          return;
        }
        RenewedLater(all, i, side, prefix, expires);
      }
      RenewedAtEnd(all, side, prefix, expires);
      subtrees := subtrees + [Subtree(side, prefix, expires)];
    }

    lemma RenewedFromStart(all: seq<Subtree>, side: Side, prefix: Path, expires: int)
      ensures Renewed(all, side, prefix, expires) == all[..0] + Renewed(all[0..], side, prefix, expires)
    {
      hide Renewed;
      assert all[0..] == all;
    }

    lemma RenewedHere(all: seq<Subtree>, i: nat, side: Side, prefix: Path, expires: int)
      requires i < |all| && Names(all[i], side, prefix)
      ensures all[..i] + Renewed(all[i..], side, prefix, expires) == all[i := all[i].(expires := expires)]
    {
      hide Names;
      assert all[i..][1..] == all[i + 1..] && all[i..][0] == all[i];
    }

    lemma RenewedLater(all: seq<Subtree>, i: nat, side: Side, prefix: Path, expires: int)
      requires i < |all| && !Names(all[i], side, prefix)
      ensures all[..i] + Renewed(all[i..], side, prefix, expires) == all[..i + 1] + Renewed(all[i + 1..], side,
        prefix, expires)
    {
      hide Names;
      assert all[i..][1..] == all[i + 1..] && all[i..][0] == all[i];
    }

    lemma RenewedAtEnd(all: seq<Subtree>, side: Side, prefix: Path, expires: int)
      ensures all[..|all|] + Renewed(all[|all|..], side, prefix, expires) == all + [Subtree(side, prefix, expires)]
    {
      hide Names;
    }

    method ForgetSubtree(side: Side, prefix: Path)
      modifies this`subtrees
      ensures Now() == Spec.ForgetSubtree(old(Now()), side, prefix)
    {
      var kept: seq<Subtree> := [];
      for i := 0 to |subtrees|
        invariant kept == Without(subtrees[..i], side, prefix)
        invariant subtrees == old(subtrees)
      {
        assert subtrees[..i + 1][..i] == subtrees[..i];
        if !Names(subtrees[i], side, prefix) { kept := kept + [subtrees[i]]; }
      }
      assert subtrees[..|subtrees|] == subtrees;
      subtrees := kept;
    }

    method Forget(side: Side, path: Path)
      modifies this`seen
      ensures Now() == Spec.Forget(old(Now()), side, path)
    {
      seen := seen - {Key(side, path)};
    }

    /** Spends the first live expectation among the paths, dropping dead ones met on the way. */
    method SpendExact(side: Side, paths: seq<Path>, now: int) returns (hit: Option<Key>)
      modifies this`seen, this`expired
      ensures Exact(old(Now()), side, paths, now) == Search(seen, expired, hit)
    {
      hit := None;
      for i := 0 to |paths|
        invariant Exact(old(Now()), side, paths[..i], now) == Search(seen, expired, None) && hit == None
      {
        assert paths[..i + 1][..i] == paths[..i];
        var k := Key(side, paths[i]);
        if k in seen {
          if seen[k].expires < now {
            seen := seen - {k};
            expired := Count64(expired + 1);
          } else {
            hit := Some(k);
            if seen[k].count - 1 <= 0 {
              seen := seen - {k};
            } else {
              seen := seen[k := seen[k].(count := seen[k].count - 1)];
            }
            HitStays(old(Now()), side, paths, now, i + 1);
            return;
          }
        }
      }
      assert paths[..|paths|] == paths;
    }

    lemma {:induction false} HitStays(m: Memory, side: Side, paths: seq<Path>, now: int, i: nat)
      requires i <= |paths| && Exact(m, side, paths[..i], now).hit.Some?
      ensures Exact(m, side, paths, now) == Exact(m, side, paths[..i], now)
      decreases |paths| - i
    {
      if i < |paths| {
        assert paths[..i + 1][..i] == paths[..i];
        HitStays(m, side, paths, now, i + 1);
      } else {
        assert paths[..i] == paths;
      }
    }

    method CoveredBySubtree(side: Side, paths: seq<Path>, now: int) returns (covered: bool)
      ensures covered == SubtreeMatches(subtrees, side, paths, now)
    {
      hide UnderPrefix;
      for i := 0 to |subtrees|
        invariant forall j :: 0 <= j < i ==> !Covers(subtrees[j], side, paths, now)
      {
        var st := subtrees[i];
        if st.side == side && !(st.expires < now) {
          for j := 0 to |paths|
            invariant forall l :: 0 <= l < j ==> !UnderPrefix(paths[l], st.prefix)
          {
            if UnderPrefix(paths[j], st.prefix) {
              assert paths[j] in paths && st in subtrees;
              return true;
            }
          }
        }
      }
      return false;
    }

    method Consume(ev: Event, now: int) returns (suppressed: bool)
      modifies this`seen, this`matched, this`expired
      ensures Now() == Spec.Consume(old(Now()), ev, now).memory
      ensures suppressed == Spec.Consume(old(Now()), ev, now).suppressed
    {
      hide Exact, SubtreeMatches;
      var paths := [ev.path];
      if ev.kind == Move && ev.from != "" { paths := paths + [ev.from]; }
      assert paths == PathsOf(ev);
      var hit := SpendExact(ev.side, paths, now);
      suppressed := hit.Some?;
      if !suppressed { suppressed := CoveredBySubtree(ev.side, paths, now); }
      if suppressed { matched := Count64(matched + 1); }
    }

    lemma OneFewer(before: map<Key, Expectation>, k: Key)
      requires k in before
      ensures |before| == |before - {k}| + 1
    {
      assert before.Keys == (before - {k}).Keys + {k};
      assert |before.Keys| == |before| && |(before - {k}).Keys| == |before - {k}|;
    }

    method SweepSeen(now: int) returns (n: int)
      modifies this`seen
      ensures seen == LiveSeen(old(seen), now) && n == |old(seen)| - |seen|
    {
      var keys := seen.Keys;
      n := 0;
      while keys != {}
        invariant keys <= old(seen).Keys
        invariant seen == map k | k in old(seen) && (k in keys || !(old(seen)[k].expires < now)) :: old(seen)[k]
        invariant n == |old(seen)| - |seen|
        decreases |keys|
      {
        var k :| k in keys;
        keys := keys - {k};
        if seen[k].expires < now {
          OneFewer(seen, k);
          seen := seen - {k};
          n := n + 1;
        }
      }
    }

    method SweepSubtrees(now: int) returns (n: int)
      modifies this`subtrees
      ensures subtrees == LiveSubtrees(old(subtrees), now) && n == |old(subtrees)| - |subtrees|
    {
      n := 0;
      var kept: seq<Subtree> := [];
      for i := 0 to |subtrees|
        invariant kept == LiveSubtrees(subtrees[..i], now) && n == i - |kept| && subtrees == old(subtrees)
      {
        assert subtrees[..i + 1][..i] == subtrees[..i];
        if subtrees[i].expires < now { n := n + 1; } else { kept := kept + [subtrees[i]]; }
      }
      assert subtrees[..|subtrees|] == subtrees;
      subtrees := kept;
    }

    method Sweep(now: int) returns (n: int)
      modifies this`seen, this`subtrees, this`expired
      ensures Now() == Spec.Sweep(old(Now()), now) && n == Swept(old(Now()), now)
    {
      hide LiveSeen, LiveSubtrees;
      n := SweepSeen(now);
      var m := SweepSubtrees(now);
      n := n + m;
      expired := Count64(expired + n);
    }
  }
}
