// internal/engine/dispatch.go: events spread over workers by the first component of their path, with a
// barrier for moves that concern two workers. Any interleaving comes to the same as one event at a time.

module Partitions {
  import opened Events
  import opened Paths

  const FNV_OFFSET: bv32 := 2166136261
  const FNV_PRIME: bv32 := 16777619

  function ByteAt(s: string, i: nat): bv32
    requires i < |s|
  {
    (s[i] as int % 256) as bv32
  }

  function Mix(h: bv32, b: bv32): bv32 {
    (h ^ b) * FNV_PRIME
  }

  /** FNV-1a over the bytes of a name. */
  function Fnv32(s: string): bv32 {
    if s == "" then FNV_OFFSET else Mix(Fnv32(s[..|s| - 1]), ByteAt(s, |s| - 1))
  }

  method Hash(s: string) returns (h: bv32)
    ensures h == Fnv32(s)
  {
    hide Mix, ByteAt;
    h := FNV_OFFSET;
    for i := 0 to |s|
      invariant h == Fnv32(s[..i])
    {
      assert s[..i + 1][..i] == s[..i];
      SameByte(s, i);
      h := Mix(h, ByteAt(s, i));
    }
    assert s[..|s|] == s;
  }

  lemma SameByte(s: string, i: nat)
    requires i < |s|
    ensures ByteAt(s[..i + 1], i) == ByteAt(s, i)
  {
  }

  function UpToSlash(s: string): string {
    if s == "" || s[0] == '/' then "" else [s[0]] + UpToSlash(s[1..])
  }

  function TopComponent(rel: Path): string {
    UpToSlash(if |rel| >= 2 && rel[0] == '.' && rel[1] == '/' then rel[2..] else rel)
  }

  function Partition(rel: Path, workers: nat): (w: nat)
    requires workers > 0
    ensures w < workers
  {
    if workers == 1 then 0 else Fnv32(TopComponent(rel)) as int % workers
  }

  predicate CrossesPartitions(ev: Event, workers: nat)
    requires workers > 0
  {
    ev.kind == Move && ev.from != "" && Partition(ev.from, workers) != Partition(ev.path, workers)
  }

  lemma {:induction false} UpToSlashBelow(p: string, q: string)
    requires |q| < |p| && p[..|q|] == q && p[|q|] == '/'
    ensures UpToSlash(p) == UpToSlash(q)
  {
    if q != "" && q[0] != '/' {
      assert p[0] == p[..|q|][0];
      assert p[1..][..|q| - 1] == p[..|q|][1..] == q[1..];
      UpToSlashBelow(p[1..], q[1..]);
    }
  }

  /** A directory and everything below it share their first component, hence their worker. */
  lemma SubtreeSharesPartition(p: Path, q: Path, workers: nat)
    requires Under(p, q) && q != "." && workers > 0
    ensures TopComponent(p) == TopComponent(q) && Partition(p, workers) == Partition(q, workers)
  {
    assert q == p[..|q|];
    if |q| >= 2 {
      assert p[0] == q[0] && p[1] == q[1];
      if q[0] == '.' && q[1] == '/' {
        assert p[2..][..|q| - 2] == q[2..];
        UpToSlashBelow(p[2..], q[2..]);
      } else {
        UpToSlashBelow(p, q);
      }
    } else if |q| == 1 {
      assert p[0] == q[0] && p[1] == '/';
      assert q[0] == '.' ==> q == ".";
      UpToSlashBelow(p, q);
    } else {
      UpToSlashBelow(p, q);
    }
  }
}

/** A saved copy beside the original, seen by the dispatcher. */
module SavedCopies {
  import opened Events
  import opened Names
  import opened Partitions
  import opened Paths
  import Text

  lemma BelowItsDir(p: Path)
    requires Clean(p) && '/' in p
    ensures Dir(p) != "." && Under(p, Dir(p))
  {
    hide Base;
    var i := Text.LastIndex(p, '/');
    if i >= 0 { assert p[..i + 1][..i] == p[..i]; }
  }

  lemma {:induction false} NoSlash(s: string)
    requires '/' !in s
    ensures UpToSlash(s) == s
  {
    if s != "" {
      NoSlash(s[1..]);
      assert s == [s[0]] + s[1..];
    }
  }

  /**
   * The saved copy of a file shares the first component of the file exactly when the file is not at the
   * top of the tree: a handler may then write below a component that its event does not name.
   */
  lemma SavedCopyKeepsComponentExactly(p: Path, side: Side, at: Stamp)
    requires Clean(p)
    ensures TopComponent(ConflictName(p, side, at)) == TopComponent(p) <==> '/' in p
  {
    hide ConflictName, UpToSlash, Clean;
    var name := ConflictName(p, side, at);
    SavedIsNotOriginal(p, side, at);
    SavedDotAndSlash(p, side, at);
    if '/' in p {
      BelowItsDir(p);
      KeepsDirectory(p, side, at);
      InSameDir(p, name);
      SubtreeSharesPartition(p, Dir(p), 1);
      SubtreeSharesPartition(name, Dir(p), 1);
    } else {
      SlashlessTop(p);
      SlashlessTop(name);
    }
  }

  lemma InSameDir(p: Path, name: Path)
    requires Under(p, Dir(p)) && Dir(p) != "." && Dir(name) == Dir(p)
    requires Text.LastIndex(name, '/') == Text.LastIndex(p, '/')
    ensures Under(name, Dir(p))
  {
  }

  lemma SlashlessTop(p: Path)
    requires Text.LastIndex(p, '/') == -1
    ensures TopComponent(p) == p
  {
    assert '/' !in p;
    NoSlash(p);
  }
}

module Dispatch {
  import opened Events
  import opened Options
  import opened Partitions

  /** What the handlers work on, divided by first component. */
  type Store<V> = map<string, V>

  /** Handling an event takes a number of small steps, each changing the store. */
  datatype Handler<!V> = Handler(size: Event -> nat, step: (Event, nat, Store<V>) -> Store<V>)

  function Find<V>(s: Store<V>, k: string): Option<V> {
    if k in s then Some(s[k]) else None
  }

  /** The first components an event names. */
  function Tops(ev: Event): set<string> {
    if ev.kind == Move && ev.from != "" then {TopComponent(ev.path), TopComponent(ev.from)} else {TopComponent(ev.path)}
  }

  /** Every step reads and writes only below the components its event names. */
  ghost predicate Local<V(!new)>(h: Handler<V>) {
    && (forall ev, i: nat, s, k :: k !in Tops(ev) ==> Find(h.step(ev, i, s), k) == Find(s, k))
    && (forall ev, i: nat, s, t :: (forall k :: k in Tops(ev) ==> Find(s, k) == Find(t, k)) ==>
          forall k :: k in Tops(ev) ==> Find(h.step(ev, i, s), k) == Find(h.step(ev, i, t), k))
  }

  /** The steps of one event from i on. */
  function RunFrom<V>(h: Handler<V>, ev: Event, i: nat, s: Store<V>): Store<V>
    requires i <= h.size(ev)
    decreases h.size(ev) - i
  {
    if i == h.size(ev) then s else RunFrom(h, ev, i + 1, h.step(ev, i, s))
  }

  /** One event after the other. */
  function Sequential<V>(h: Handler<V>, events: seq<Event>, s: Store<V>): Store<V> {
    if events == [] then s
    else RunFrom(h, events[|events| - 1], 0, Sequential(h, events[..|events| - 1], s))
  }

  // ------------------------------------------------------------------ the dispatcher

  datatype Worker = Idle | Busy(ev: Event, at: nat)

  /** Between two events, between Add and the send, or handling a move behind the barrier. */
  datatype Loop = Ready | Adding | Moving(at: nat)

  /** `sent` events of the input have been taken by the loop; `begun` lists them as their handling began. */
  datatype State<V> = State(
    store: Store<V>, queues: seq<seq<Event>>, workers: seq<Worker>, inflight: int,
    loop: Loop, sent: nat, begun: seq<Event>)

  const CAPACITY: nat := 64

  datatype Action = Add | Enqueue | Barrier | MoveStep | MoveDone | TakeNext(w: nat) | WorkStep(w: nat) | WorkDone(w: nat)

  /** n workers requested; never fewer than one. */
  function WorkerCount(n: int): (w: nat)
    ensures w > 0
  {
    if n < 1 then 1 else n
  }

  function Start<V>(s: Store<V>, workers: nat): State<V> {
    State(s, seq(workers, i => []), seq(workers, i => Idle), 0, Ready, 0, [])
  }

  predicate Shape<V>(s: State<V>, input: seq<Event>) {
    && |s.queues| == |s.workers| > 0 && s.sent <= |input|
    && (s.loop.Adding? ==> s.sent < |input|) && (s.loop.Moving? ==> s.sent > 0)
  }

  predicate Enabled<V>(h: Handler<V>, input: seq<Event>, s: State<V>, act: Action)
    requires Shape(s, input)
  {
    var n := |s.workers|;
    match act
    case Add => s.loop == Ready && s.sent < |input| && !CrossesPartitions(input[s.sent], n)
    case Enqueue => s.loop == Adding && |s.queues[Partition(input[s.sent].path, n)]| < CAPACITY
    case Barrier => s.loop == Ready && s.sent < |input| && CrossesPartitions(input[s.sent], n) && s.inflight == 0
    case MoveStep => s.loop.Moving? && s.loop.at < h.size(input[s.sent - 1])
    case MoveDone => s.loop.Moving? && s.loop.at == h.size(input[s.sent - 1])
    case TakeNext(w) => w < n && s.workers[w].Idle? && s.queues[w] != []
    case WorkStep(w) => w < n && s.workers[w].Busy? && s.workers[w].at < h.size(s.workers[w].ev)
    case WorkDone(w) => w < n && s.workers[w].Busy? && s.workers[w].at == h.size(s.workers[w].ev)
  }

  function Do<V>(h: Handler<V>, input: seq<Event>, s: State<V>, act: Action): State<V>
    requires Shape(s, input) && Enabled(h, input, s, act)
  {
    match act
    case Add => s.(inflight := s.inflight + 1, loop := Adding)
    case Enqueue =>
      var ev := input[s.sent];
      var w := Partition(ev.path, |s.workers|);
      s.(queues := s.queues[w := s.queues[w] + [ev]], loop := Ready, sent := s.sent + 1)
    case Barrier => s.(loop := Moving(0), sent := s.sent + 1, begun := s.begun + [input[s.sent]])
    case MoveStep =>
      s.(store := h.step(input[s.sent - 1], s.loop.at, s.store), loop := Moving(s.loop.at + 1))
    case MoveDone => s.(loop := Ready)
    case TakeNext(w) =>
      s.(queues := s.queues[w := s.queues[w][1..]], workers := s.workers[w := Busy(s.queues[w][0], 0)],
         begun := s.begun + [s.queues[w][0]])
    case WorkStep(w) =>
      var b := s.workers[w];
      s.(store := h.step(b.ev, b.at, s.store), workers := s.workers[w := Busy(b.ev, b.at + 1)])
    case WorkDone(w) => s.(workers := s.workers[w := Idle], inflight := s.inflight - 1)
  }

  // --------------------------------------------------------------------- partitions

  /** All the event names lies in partition w. */
  predicate Belongs(ev: Event, w: nat, workers: nat)
    requires workers > 0
  {
    Partition(ev.path, workers) == w && !CrossesPartitions(ev, workers)
  }

  predicate Touches(ev: Event, w: nat, workers: nat)
    requires workers > 0
  {
    Partition(ev.path, workers) == w || (ev.kind == Move && ev.from != "" && Partition(ev.from, workers) == w)
  }

  function Home(k: string, workers: nat): nat
    requires workers > 0
  {
    if workers == 1 then 0 else Fnv32(k) as int % workers
  }

  /** The two stores hold the same in partition w. */
  ghost predicate EqualIn<V>(s: Store<V>, t: Store<V>, w: nat, workers: nat)
    requires workers > 0
  {
    forall k :: Home(k, workers) == w ==> Find(s, k) == Find(t, k)
  }

  lemma TopsAtHome(ev: Event, w: nat, workers: nat)
    requires workers > 0
    ensures Belongs(ev, w, workers) ==> forall k :: k in Tops(ev) ==> Home(k, workers) == w
    ensures !Touches(ev, w, workers) ==> forall k :: k in Tops(ev) ==> Home(k, workers) != w
  {
    hide Fnv32, TopComponent;
  }

  lemma StepElsewhere<V(!new)>(h: Handler<V>, ev: Event, i: nat, s: Store<V>, w: nat, workers: nat)
    requires Local(h) && workers > 0 && !Touches(ev, w, workers)
    ensures EqualIn(h.step(ev, i, s), s, w, workers)
  {
    hide Home, Touches, Tops;
    TopsAtHome(ev, w, workers);
  }

  lemma StepAtHome<V(!new)>(h: Handler<V>, ev: Event, i: nat, s: Store<V>, t: Store<V>, w: nat, workers: nat)
    requires Local(h) && workers > 0 && Belongs(ev, w, workers) && EqualIn(s, t, w, workers)
    ensures EqualIn(h.step(ev, i, s), h.step(ev, i, t), w, workers)
  {
    hide Home, Belongs, Tops;
    TopsAtHome(ev, w, workers);
    forall k | Home(k, workers) == w ensures Find(h.step(ev, i, s), k) == Find(h.step(ev, i, t), k) {
      assert Find(s, k) == Find(t, k);
      if k !in Tops(ev) {
        assert Find(h.step(ev, i, s), k) == Find(s, k) && Find(h.step(ev, i, t), k) == Find(t, k);
      }
    }
  }

  lemma {:induction false} RunAtHome<V(!new)>(h: Handler<V>, ev: Event, i: nat, s: Store<V>, t: Store<V>,
        w: nat, workers: nat)
    requires Local(h) && workers > 0 && Belongs(ev, w, workers) && EqualIn(s, t, w, workers) && i <= h.size(ev)
    ensures EqualIn(RunFrom(h, ev, i, s), RunFrom(h, ev, i, t), w, workers)
    decreases h.size(ev) - i
  {
    hide Belongs, EqualIn, Local;
    if i < h.size(ev) {
      StepAtHome(h, ev, i, s, t, w, workers);
      RunAtHome(h, ev, i + 1, h.step(ev, i, s), h.step(ev, i, t), w, workers);
    }
  }

  lemma {:induction false} RunElsewhere<V(!new)>(h: Handler<V>, ev: Event, i: nat, s: Store<V>, w: nat, workers: nat)
    requires Local(h) && workers > 0 && !Touches(ev, w, workers) && i <= h.size(ev)
    ensures EqualIn(RunFrom(h, ev, i, s), s, w, workers)
    decreases h.size(ev) - i
  {
    hide Touches, Local, Home;
    if i < h.size(ev) {
      StepElsewhere(h, ev, i, s, w, workers);
      RunElsewhere(h, ev, i + 1, h.step(ev, i, s), w, workers);
    }
  }

  // ------------------------------------------------------------------- the invariant

  /** What partition w holds once its worker has done all it has been given. */
  function Drained<V>(h: Handler<V>, s: State<V>, w: nat): Store<V>
    requires w < |s.workers| == |s.queues| && (s.workers[w].Busy? ==> s.workers[w].at <= h.size(s.workers[w].ev))
  {
    Sequential(h, s.queues[w], if s.workers[w].Busy? then RunFrom(h, s.workers[w].ev, s.workers[w].at, s.store) else s.store)
  }

  function Load(queues: seq<seq<Event>>, workers: seq<Worker>): nat
    requires |queues| == |workers|
  {
    if queues == [] then 0
    else
      var n := |queues| - 1;
      Load(queues[..n], workers[..n]) + |queues[n]| + if workers[n].Busy? then 1 else 0
  }

  /** The events that touch partition w, in order. */
  function Concerning(events: seq<Event>, w: nat, workers: nat): seq<Event>
    requires workers > 0
  {
    if events == [] then []
    else
      var last := events[|events| - 1];
      Concerning(events[..|events| - 1], w, workers) + if Touches(last, w, workers) then [last] else []
  }

  /** Workers hold only events of their own partition, and the count of events in flight is right. */
  ghost predicate Placed<V>(h: Handler<V>, s: State<V>, input: seq<Event>)
    requires Shape(s, input)
  {
    && (forall w, ev :: 0 <= w < |s.queues| && ev in s.queues[w] ==> Belongs(ev, w, |s.workers|))
    && (forall w :: 0 <= w < |s.workers| && s.workers[w].Busy? ==>
          Belongs(s.workers[w].ev, w, |s.workers|) && s.workers[w].at <= h.size(s.workers[w].ev))
    && s.inflight == Load(s.queues, s.workers) + (if s.loop.Adding? then 1 else 0)
    && (s.loop.Adding? ==> !CrossesPartitions(input[s.sent], |s.workers|))
    && (s.loop.Moving? ==> s.inflight == 0 && s.loop.at <= h.size(input[s.sent - 1]))
  }

  /** Per partition, what is done and what is queued are the events taken so far, in their order. */
  ghost predicate InOrder<V>(s: State<V>, input: seq<Event>)
    requires Shape(s, input)
  {
    forall w :: 0 <= w < |s.workers| ==>
      Concerning(s.begun, w, |s.workers|) + s.queues[w] == Concerning(input[..s.sent], w, |s.workers|)
  }

  ghost predicate StoreRight<V>(h: Handler<V>, s: State<V>, input: seq<Event>, s0: Store<V>)
    requires Shape(s, input) && Placed(h, s, input)
  {
    if s.loop.Moving? then
      RunFrom(h, input[s.sent - 1], s.loop.at, s.store) == Sequential(h, input[..s.sent], s0)
    else
      forall w :: 0 <= w < |s.workers| ==> EqualIn(Drained(h, s, w), Sequential(h, input[..s.sent], s0), w, |s.workers|)
  }

  ghost predicate Inv<V>(h: Handler<V>, s: State<V>, input: seq<Event>, s0: Store<V>) {
    Shape(s, input) && Placed(h, s, input) && InOrder(s, input) && StoreRight(h, s, input, s0)
  }

  lemma {:induction false} LoadUpdate(queues: seq<seq<Event>>, workers: seq<Worker>, w: nat, q: seq<Event>,
        worker: Worker)
    requires w < |queues| == |workers|
    ensures Load(queues[w := q], workers[w := worker]) ==
      Load(queues, workers) - |queues[w]| - (if workers[w].Busy? then 1 else 0) + |q| + (if worker.Busy? then 1 else 0)
  {
    var n := |queues| - 1;
    if w < n {
      LoadUpdate(queues[..n], workers[..n], w, q, worker);
      assert queues[w := q][..n] == queues[..n][w := q] && workers[w := worker][..n] == workers[..n][w := worker];
    } else {
      assert queues[w := q][..n] == queues[..n] && workers[w := worker][..n] == workers[..n];
    }
  }

  lemma {:induction false} NoLoad(queues: seq<seq<Event>>, workers: seq<Worker>, w: nat)
    requires w < |queues| == |workers| && Load(queues, workers) == 0
    ensures queues[w] == [] && workers[w].Idle?
  {
    var n := |queues| - 1;
    if w < n { NoLoad(queues[..n], workers[..n], w); }
  }

  lemma ConcerningGrows(events: seq<Event>, ev: Event, w: nat, workers: nat)
    requires workers > 0
    ensures Concerning(events + [ev], w, workers) == Concerning(events, w, workers) + if Touches(ev, w, workers) then [ev] else []
  {
    assert (events + [ev])[..|events|] == events;
  }

  lemma SequentialGrows<V>(h: Handler<V>, events: seq<Event>, ev: Event, s: Store<V>)
    ensures Sequential(h, events + [ev], s) == RunFrom(h, ev, 0, Sequential(h, events, s))
  {
    assert (events + [ev])[..|events|] == events;
  }

  lemma {:induction false} SequentialHead<V>(h: Handler<V>, events: seq<Event>, s: Store<V>)
    requires events != []
    ensures Sequential(h, events, s) == Sequential(h, events[1..], RunFrom(h, events[0], 0, s))
  {
    var n := |events| - 1;
    if n > 0 {
      SequentialHead(h, events[..n], s);
      assert events[..n][1..] == events[1..][..n - 1];
    } else {
      assert events[..n] == [] && events[1..] == [];
    }
  }

  lemma {:induction false} SequentialAtHome<V(!new)>(h: Handler<V>, events: seq<Event>, s: Store<V>,
        t: Store<V>, w: nat, workers: nat)
    requires Local(h) && workers > 0 && EqualIn(s, t, w, workers) && forall ev :: ev in events ==> Belongs(ev, w, workers)
    ensures EqualIn(Sequential(h, events, s), Sequential(h, events, t), w, workers)
  {
    hide Belongs, EqualIn, Local;
    if events != [] {
      var n := |events| - 1;
      assert events[n] in events && forall ev :: ev in events[..n] ==> ev in events;
      SequentialAtHome(h, events[..n], s, t, w, workers);
      RunAtHome(h, events[n], 0, Sequential(h, events[..n], s), Sequential(h, events[..n], t), w, workers);
    }
  }

  // --------------------------------------------------------- every action keeps it

  lemma EqualInChain<V>(s: Store<V>, t: Store<V>, u: Store<V>, w: nat, workers: nat)
    requires workers > 0 && EqualIn(s, t, w, workers) && EqualIn(t, u, w, workers)
    ensures EqualIn(s, u, w, workers)
  {
    hide Home;
  }

  lemma EqualEverywhere<V>(s: Store<V>, t: Store<V>, workers: nat)
    requires workers > 0 && forall w :: 0 <= w < workers ==> EqualIn(s, t, w, workers)
    ensures s == t
  {
    forall k ensures Find(s, k) == Find(t, k) {
      HomeInRange(k, workers);
      assert EqualIn(s, t, Home(k, workers), workers);
    }
    forall k ensures (k in s <==> k in t) && (k in s ==> s[k] == t[k]) {
      assert Find(s, k) == Find(t, k);
    }
  }

  lemma HomeInRange(k: string, workers: nat)
    requires workers > 0
    ensures Home(k, workers) < workers
  {
  }

  lemma BelongsTouches(ev: Event, w: nat, v: nat, workers: nat)
    requires workers > 0 && Belongs(ev, w, workers)
    ensures Touches(ev, v, workers) <==> v == w
  {
    hide Fnv32, TopComponent;
  }

  lemma {:induction false} LoadIsIdle(queues: seq<seq<Event>>, workers: seq<Worker>)
    requires |queues| == |workers| && Load(queues, workers) == 0
    ensures forall w :: 0 <= w < |queues| ==> queues[w] == [] && workers[w].Idle?
  {
    forall w | 0 <= w < |queues| ensures queues[w] == [] && workers[w].Idle? {
      NoLoad(queues, workers, w);
    }
  }

  lemma AddKeeps<V>(h: Handler<V>, s: State<V>, input: seq<Event>, s0: Store<V>)
    requires Inv(h, s, input, s0) && Enabled(h, input, s, Add)
    ensures Inv(h, Do(h, input, s, Add), input, s0)
  {
    hide Concerning, Sequential, RunFrom, EqualIn, Load, Belongs, CrossesPartitions;
    var t := Do(h, input, s, Add);
    forall w | 0 <= w < |s.workers| ensures Drained(h, t, w) == Drained(h, s, w) {
    }
  }

  lemma EnqueuedStore<V(!new)>(h: Handler<V>, s: State<V>, t: State<V>, input: seq<Event>, s0: Store<V>,
        w: nat, v: nat)
    requires Local(h) && Shape(s, input) && Placed(h, s, input) && Shape(t, input) && Placed(h, t, input)
    requires s.sent < |input| && v < |s.workers| && w < |s.workers| && Belongs(input[s.sent], w, |s.workers|)
    requires t == s.(queues := s.queues[w := s.queues[w] + [input[s.sent]]], loop := Ready, sent := s.sent + 1)
    requires EqualIn(Drained(h, s, v), Sequential(h, input[..s.sent], s0), v, |s.workers|)
    ensures EqualIn(Drained(h, t, v), Sequential(h, input[..t.sent], s0), v, |s.workers|)
  {
    hide RunFrom, EqualIn, Belongs, Local, Touches, Load, CrossesPartitions, Sequential;
    var ev, workers := input[s.sent], |s.workers|;
    assert input[..t.sent] == input[..s.sent] + [ev];
    SequentialGrows(h, input[..s.sent], ev, s0);
    BelongsTouches(ev, w, v, workers);
    if v == w {
      var base := if s.workers[w].Busy? then RunFrom(h, s.workers[w].ev, s.workers[w].at, s.store) else s.store;
      SequentialGrows(h, s.queues[w], ev, base);
      RunAtHome(h, ev, 0, Drained(h, s, w), Sequential(h, input[..s.sent], s0), w, workers);
    } else {
      RunElsewhere(h, ev, 0, Sequential(h, input[..s.sent], s0), v, workers);
      EqualInSymmetric(Sequential(h, input[..t.sent], s0), Sequential(h, input[..s.sent], s0), v, workers);
      EqualInChain(Drained(h, t, v), Sequential(h, input[..s.sent], s0), Sequential(h, input[..t.sent], s0), v,
        workers);
    }
  }

  lemma EqualInSymmetric<V>(s: Store<V>, t: Store<V>, w: nat, workers: nat)
    requires workers > 0 && EqualIn(s, t, w, workers)
    ensures EqualIn(t, s, w, workers)
  {
    hide Home;
  }

  lemma EnqueuePlaced<V>(h: Handler<V>, s: State<V>, input: seq<Event>)
    requires Shape(s, input) && Placed(h, s, input) && InOrder(s, input) && Enabled(h, input, s, Enqueue)
    ensures var t := Do(h, input, s, Enqueue); Shape(t, input) && Placed(h, t, input) && InOrder(t, input)
  {
    hide Fnv32, TopComponent, Concerning, Load, Touches;
    var t, ev, workers := Do(h, input, s, Enqueue), input[s.sent], |s.workers|;
    var w := Partition(ev.path, workers);
    LoadUpdate(s.queues, s.workers, w, s.queues[w] + [ev], s.workers[w]);
    assert t.workers == s.workers[w := s.workers[w]];
    assert Belongs(ev, w, workers);
    forall v | 0 <= v < workers
      ensures Concerning(t.begun, v, workers) + t.queues[v] == Concerning(input[..t.sent], v, workers)
    {
      assert input[..t.sent] == input[..s.sent] + [ev];
      ConcerningGrows(input[..s.sent], ev, v, workers);
      BelongsTouches(ev, w, v, workers);
    }
  }

  lemma EnqueueKeeps<V(!new)>(h: Handler<V>, s: State<V>, input: seq<Event>, s0: Store<V>)
    requires Local(h) && Inv(h, s, input, s0) && Enabled(h, input, s, Enqueue)
    ensures Inv(h, Do(h, input, s, Enqueue), input, s0)
  {
    hide Concerning, Sequential, RunFrom, EqualIn, Load, InOrder, Local, Drained, Partition;
    EnqueuePlaced(h, s, input);
    var t, w := Do(h, input, s, Enqueue), Partition(input[s.sent].path, |s.workers|);
    forall v | 0 <= v < |t.workers|
      ensures EqualIn(Drained(h, t, v), Sequential(h, input[..t.sent], s0), v, |t.workers|)
    {
      EnqueuedStore(h, s, t, input, s0, w, v);
    }
  }

  lemma BarrierKeeps<V>(h: Handler<V>, s: State<V>, input: seq<Event>, s0: Store<V>)
    requires Inv(h, s, input, s0) && Enabled(h, input, s, Barrier)
    ensures Inv(h, Do(h, input, s, Barrier), input, s0)
  {
    hide RunFrom, EqualIn, Load, Belongs, CrossesPartitions, Touches, Concerning;
    LoadIsIdle(s.queues, s.workers);
    var t, ev, workers := Do(h, input, s, Barrier), input[s.sent], |s.workers|;
    forall w | 0 <= w < workers ensures EqualIn(s.store, Sequential(h, input[..s.sent], s0), w, workers) {
      assert Drained(h, s, w) == s.store;
    }
    EqualEverywhere(s.store, Sequential(h, input[..s.sent], s0), workers);
    assert input[..t.sent] == input[..s.sent] + [ev];
    SequentialGrows(h, input[..s.sent], ev, s0);
    forall v | 0 <= v < workers
      ensures Concerning(t.begun, v, workers) + t.queues[v] == Concerning(input[..t.sent], v, workers)
    {
      ConcerningGrows(input[..s.sent], ev, v, workers);
      ConcerningGrows(s.begun, ev, v, workers);
      assert Concerning(s.begun, v, workers) + [] == Concerning(s.begun, v, workers);
    }
  }

  lemma MoveStepKeeps<V>(h: Handler<V>, s: State<V>, input: seq<Event>, s0: Store<V>)
    requires Inv(h, s, input, s0) && Enabled(h, input, s, MoveStep)
    ensures Inv(h, Do(h, input, s, MoveStep), input, s0)
  {
    hide EqualIn, Load, Belongs, CrossesPartitions, Concerning, Sequential;
  }

  lemma MoveDoneKeeps<V>(h: Handler<V>, s: State<V>, input: seq<Event>, s0: Store<V>)
    requires Inv(h, s, input, s0) && Enabled(h, input, s, MoveDone)
    ensures Inv(h, Do(h, input, s, MoveDone), input, s0)
  {
    hide Load, Belongs, CrossesPartitions, Concerning, Home;
    LoadIsIdle(s.queues, s.workers);
    var t := Do(h, input, s, MoveDone);
    forall w | 0 <= w < |t.workers| ensures Drained(h, t, w) == Sequential(h, input[..t.sent], s0) {
    }
  }

  lemma TakePlaced<V>(h: Handler<V>, s: State<V>, input: seq<Event>, w: nat)
    requires Shape(s, input) && Placed(h, s, input) && InOrder(s, input) && Enabled(h, input, s, TakeNext(w))
    ensures var t := Do(h, input, s, TakeNext(w)); Shape(t, input) && Placed(h, t, input) && InOrder(t, input)
  {
    hide Concerning, Load, Touches, Belongs, CrossesPartitions;
    var t, q, workers := Do(h, input, s, TakeNext(w)), s.queues[w], |s.workers|;
    LoadUpdate(s.queues, s.workers, w, q[1..], Busy(q[0], 0));
    assert q[0] in q && forall ev :: ev in q[1..] ==> ev in q;
    assert s.loop.Moving? ==> false by {
      if s.loop.Moving? { LoadIsIdle(s.queues, s.workers); }
    }
    forall v | 0 <= v < workers
      ensures Concerning(t.begun, v, workers) + t.queues[v] == Concerning(input[..t.sent], v, workers)
    {
      ConcerningGrows(s.begun, q[0], v, workers);
      BelongsTouches(q[0], w, v, workers);
      if v == w {
        assert Concerning(s.begun, v, workers) + [q[0]] + q[1..] == Concerning(s.begun, v, workers) + q;
      } else {
        assert Concerning(s.begun, v, workers) + [] == Concerning(s.begun, v, workers);
      }
    }
  }

  lemma TakeDrained<V>(h: Handler<V>, s: State<V>, input: seq<Event>, w: nat, v: nat)
    requires Shape(s, input) && Placed(h, s, input) && Enabled(h, input, s, TakeNext(w)) && v < |s.workers|
    ensures Drained(h, Do(h, input, s, TakeNext(w)), v) == Drained(h, s, v)
  {
    hide Load, Belongs, CrossesPartitions, RunFrom;
    if v == w { SequentialHead(h, s.queues[w], s.store); }
  }

  lemma TakeKeeps<V>(h: Handler<V>, s: State<V>, input: seq<Event>, s0: Store<V>, w: nat)
    requires Inv(h, s, input, s0) && Enabled(h, input, s, TakeNext(w))
    ensures Inv(h, Do(h, input, s, TakeNext(w)), input, s0)
  {
    hide Concerning, Sequential, RunFrom, EqualIn, InOrder, Drained, Belongs, CrossesPartitions;
    TakePlaced(h, s, input, w);
    var t := Do(h, input, s, TakeNext(w));
    NotMoving(h, s, input, w);
    forall v | 0 <= v < |t.workers| ensures Drained(h, t, v) == Drained(h, s, v) {
      TakeDrained(h, s, input, w, v);
    }
  }

  lemma NotMoving<V>(h: Handler<V>, s: State<V>, input: seq<Event>, w: nat)
    requires Shape(s, input) && Placed(h, s, input) && w < |s.workers| && (s.workers[w].Busy? || s.queues[w] != [])
    ensures !s.loop.Moving?
  {
    hide Load, Belongs, CrossesPartitions;
    if s.loop.Moving? { NoLoad(s.queues, s.workers, w); }
  }

  lemma WorkStepPlaced<V>(h: Handler<V>, s: State<V>, input: seq<Event>, w: nat)
    requires Shape(s, input) && Placed(h, s, input) && InOrder(s, input) && Enabled(h, input, s, WorkStep(w))
    ensures var t := Do(h, input, s, WorkStep(w)); Shape(t, input) && Placed(h, t, input) && InOrder(t, input)
  {
    hide Concerning, Load, Touches, Belongs, CrossesPartitions;
    LoadUpdate(s.queues, s.workers, w, s.queues[w], Busy(s.workers[w].ev, s.workers[w].at + 1));
    assert s.queues[w := s.queues[w]] == s.queues;
  }

  lemma WorkStepDrained<V(!new)>(h: Handler<V>, s: State<V>, t: State<V>, input: seq<Event>, w: nat, v: nat)
    requires Local(h) && Shape(s, input) && Placed(h, s, input) && Enabled(h, input, s, WorkStep(w)) && v < |s.workers|
    requires t == Do(h, input, s, WorkStep(w)) && Placed(h, t, input)
    ensures EqualIn(Drained(h, t, v), Drained(h, s, v), v, |s.workers|)
  {
    hide Load, Belongs, CrossesPartitions, Local, EqualIn, Touches, Sequential;
    var b, workers := s.workers[w], |s.workers|;
    if v == w {
      EqualInReflexive(Drained(h, s, v), v, workers);
    } else {
      BelongsTouches(b.ev, w, v, workers);
      StepElsewhere(h, b.ev, b.at, s.store, v, workers);
      if s.workers[v].Busy? {
        RunAtHome(h, s.workers[v].ev, s.workers[v].at, t.store, s.store, v, workers);
      }
      var after := if s.workers[v].Busy? then RunFrom(h, s.workers[v].ev, s.workers[v].at, t.store) else t.store;
      var before := if s.workers[v].Busy? then RunFrom(h, s.workers[v].ev, s.workers[v].at, s.store) else s.store;
      SequentialAtHome(h, s.queues[v], after, before, v, workers);
    }
  }

  lemma EqualInReflexive<V>(s: Store<V>, w: nat, workers: nat)
    requires workers > 0
    ensures EqualIn(s, s, w, workers)
  {
  }

  lemma WorkStepKeeps<V(!new)>(h: Handler<V>, s: State<V>, input: seq<Event>, s0: Store<V>, w: nat)
    requires Local(h) && Inv(h, s, input, s0) && Enabled(h, input, s, WorkStep(w))
    ensures Inv(h, Do(h, input, s, WorkStep(w)), input, s0)
  {
    hide Concerning, Sequential, RunFrom, EqualIn, InOrder, Drained, Belongs, CrossesPartitions, Local;
    WorkStepPlaced(h, s, input, w);
    NotMoving(h, s, input, w);
    var t := Do(h, input, s, WorkStep(w));
    forall v | 0 <= v < |t.workers|
      ensures EqualIn(Drained(h, t, v), Sequential(h, input[..t.sent], s0), v, |t.workers|)
    {
      WorkStepDrained(h, s, t, input, w, v);
      EqualInChain(Drained(h, t, v), Drained(h, s, v), Sequential(h, input[..t.sent], s0), v, |t.workers|);
    }
  }

  lemma WorkDoneKeeps<V>(h: Handler<V>, s: State<V>, input: seq<Event>, s0: Store<V>, w: nat)
    requires Inv(h, s, input, s0) && Enabled(h, input, s, WorkDone(w))
    ensures Inv(h, Do(h, input, s, WorkDone(w)), input, s0)
  {
    hide Concerning, Sequential, EqualIn, Belongs, CrossesPartitions, Load;
    LoadUpdate(s.queues, s.workers, w, s.queues[w], Idle);
    assert s.queues[w := s.queues[w]] == s.queues;
    NotMoving(h, s, input, w);
    var t := Do(h, input, s, WorkDone(w));
    forall v | 0 <= v < |t.workers| ensures Drained(h, t, v) == Drained(h, s, v) {
    }
  }

  lemma EveryActionKeeps<V(!new)>(h: Handler<V>, s: State<V>, input: seq<Event>, s0: Store<V>, act: Action)
    requires Local(h) && Inv(h, s, input, s0) && Enabled(h, input, s, act)
    ensures Inv(h, Do(h, input, s, act), input, s0)
  {
    hide Inv, Local, Do, Enabled;
    match act {
      case Add => AddKeeps(h, s, input, s0);
      case Enqueue => EnqueueKeeps(h, s, input, s0);
      case Barrier => BarrierKeeps(h, s, input, s0);
      case MoveStep => MoveStepKeeps(h, s, input, s0);
      case MoveDone => MoveDoneKeeps(h, s, input, s0);
      case TakeNext(w) => TakeKeeps(h, s, input, s0, w);
      case WorkStep(w) => WorkStepKeeps(h, s, input, s0, w);
      case WorkDone(w) => WorkDoneKeeps(h, s, input, s0, w);
    }
  }

  // ------------------------------------------------------------------- every run

  function Reached<V>(h: Handler<V>, input: seq<Event>, s0: Store<V>, workers: int,
        run: seq<Action>): Option<State<V>> {
    if run == [] then Some(Start(s0, WorkerCount(workers)))
    else
      match Reached(h, input, s0, workers, run[..|run| - 1])
      case None => None
      case Some(s) =>
        if Shape(s, input) && Enabled(h, input, s, run[|run| - 1]) then Some(Do(h, input, s, run[|run| - 1])) else None
  }

  lemma {:induction false} StartLoad(queues: seq<seq<Event>>, workers: seq<Worker>)
    requires |queues| == |workers| && forall w :: 0 <= w < |queues| ==> queues[w] == [] && workers[w].Idle?
    ensures Load(queues, workers) == 0
  {
    if queues != [] { StartLoad(queues[..|queues| - 1], workers[..|queues| - 1]); }
  }

  lemma StartHolds<V>(h: Handler<V>, input: seq<Event>, s0: Store<V>, workers: nat)
    requires workers > 0
    ensures Inv(h, Start(s0, workers), input, s0)
  {
    hide Load, Home;
    var s := Start(s0, workers);
    StartLoad(s.queues, s.workers);
    assert input[..0] == [];
  }

  lemma {:induction false} InvHolds<V(!new)>(h: Handler<V>, input: seq<Event>, s0: Store<V>, workers: int,
        run: seq<Action>)
    requires Local(h) && Reached(h, input, s0, workers, run).Some?
    ensures Inv(h, Reached(h, input, s0, workers, run).value, input, s0)
  {
    hide Inv, Do, Enabled, Local;
    if run == [] {
      StartHolds(h, input, s0, WorkerCount(workers));
    } else {
      InvHolds(h, input, s0, workers, run[..|run| - 1]);
      EveryActionKeeps(h, Reached(h, input, s0, workers, run[..|run| - 1]).value, input, s0, run[|run| - 1]);
    }
  }

  /**
   * Parallel equals sequential. For any number of workers, any interleaving of the steps of their
   * handlers and of the loop, and any handler that keeps to the components its event names: once all
   * events have been taken and nothing is in flight, the store is what handling them one by one gives.
   */
  lemma ParallelIsSequential<V(!new)>(h: Handler<V>, input: seq<Event>, s0: Store<V>, workers: int, run: seq<Action>)
    requires Local(h) && Reached(h, input, s0, workers, run).Some?
    requires var s := Reached(h, input, s0, workers, run).value;
      s.sent == |input| && s.inflight == 0 && s.loop == Ready
    ensures Reached(h, input, s0, workers, run).value.store == Sequential(h, input, s0)
  {
    hide Reached, Local, Sequential, EqualIn, Concerning, Belongs, CrossesPartitions, Load;
    InvHolds(h, input, s0, workers, run);
    var s := Reached(h, input, s0, workers, run).value;
    LoadIsIdle(s.queues, s.workers);
    assert input[..s.sent] == input;
    forall w | 0 <= w < |s.workers| ensures EqualIn(s.store, Sequential(h, input, s0), w, |s.workers|) {
      DrainedWhenIdle(h, s, w);
    }
    EqualEverywhere(s.store, Sequential(h, input, s0), |s.workers|);
  }

  lemma DrainedWhenIdle<V>(h: Handler<V>, s: State<V>, w: nat)
    requires w < |s.workers| == |s.queues| && s.workers[w].Idle? && s.queues[w] == []
    ensures Drained(h, s, w) == s.store
  {
  }

  /**
   * In every run: events that concern one partition, and so all that share a first component, begin in
   * the order in which they were dispatched, whatever the workers are doing.
   */
  lemma DispatchOrderIsKept<V(!new)>(h: Handler<V>, input: seq<Event>, s0: Store<V>, workers: int,
        run: seq<Action>, w: nat)
    requires Local(h) && Reached(h, input, s0, workers, run).Some?
    requires w < |Reached(h, input, s0, workers, run).value.workers|
    ensures var s := Reached(h, input, s0, workers, run).value;
      Concerning(s.begun, w, |s.workers|) <= Concerning(input, w, |s.workers|)
  {
    hide Reached, Local, Concerning, Load, StoreRight, Placed;
    InvHolds(h, input, s0, workers, run);
    var s := Reached(h, input, s0, workers, run).value;
    ConcerningPrefix(input, s.sent, w, |s.workers|);
  }

  lemma {:induction false} ConcerningPrefix(events: seq<Event>, n: nat, w: nat, workers: nat)
    requires n <= |events| && workers > 0
    ensures Concerning(events[..n], w, workers) <= Concerning(events, w, workers)
  {
    hide Touches;
    if n < |events| {
      ConcerningPrefix(events[..|events| - 1], n, w, workers);
      assert events[..|events| - 1][..n] == events[..n];
    } else {
      assert events[..n] == events;
    }
  }

  lemma SharedComponentSharesPartition(e: Event, f: Event, k: string, workers: nat)
    requires workers > 0 && k in Tops(e) && k in Tops(f)
    ensures Touches(e, Home(k, workers), workers) && Touches(f, Home(k, workers), workers)
  {
    hide Fnv32, TopComponent;
  }

  /** In every run: a move between two workers is handled with nothing queued and nobody at work. */
  lemma MovesRunAlone<V(!new)>(h: Handler<V>, input: seq<Event>, s0: Store<V>, workers: int, run: seq<Action>)
    requires Local(h) && Reached(h, input, s0, workers, run).Some?
    requires Reached(h, input, s0, workers, run).value.loop.Moving?
    ensures var s := Reached(h, input, s0, workers, run).value;
      s.inflight == 0 && |s.queues| == |s.workers| && forall w :: 0 <= w < |s.workers| ==> s.queues[w] == [] && s.workers[w].Idle?
  {
    hide Reached, Local, Concerning, Load, StoreRight, Belongs, CrossesPartitions;
    InvHolds(h, input, s0, workers, run);
    var s := Reached(h, input, s0, workers, run).value;
    LoadIsIdle(s.queues, s.workers);
  }
}
