// internal/debounce/debounce.go: bursts of events merged per path, with timers firing and a shutdown
// running at any moment. Each action below is one section of the code that runs without interruption.

module Bursts {
  import opened Events

  /** Which event stands for a burst. */
  function Merge(prev: Event, next: Event): Event {
    if next.kind == Delete then next
    else if prev.kind == Create && next.kind == Modify then prev
    else if prev.kind == Delete && next.kind == Create then next.(kind := Modify)
    else next
  }

  function MergeAll(burst: seq<Event>): Event
    requires burst != []
  {
    if |burst| == 1 then burst[0] else Merge(MergeAll(burst[..|burst| - 1]), burst[|burst| - 1])
  }

  predicate Writes(e: Event) { e.kind == Create || e.kind == Modify }

  /**
   * The last event decides what becomes of a burst: it stands for a deletion exactly when the last event
   * is one, for an attribute change exactly when the last event is one, however much content came before
   * it, and for a creation or modification otherwise.
   */
  lemma {:induction false} LastDecides(burst: seq<Event>)
    requires burst != [] && forall e :: e in burst ==> e.kind != Move
    ensures var merged, last := MergeAll(burst), burst[|burst| - 1];
      && (merged.kind == Delete <==> last.kind == Delete)
      && (merged.kind == Attrib <==> last.kind == Attrib)
      && (Writes(merged) <==> Writes(last))
  {
    if |burst| > 1 {
      var init := burst[..|burst| - 1];
      assert forall e :: e in init ==> e in burst;
      LastDecides(init);
    }
  }

  /** A burst about one path of one kind of node stands for that path and that kind of node. */
  lemma {:induction false} MergeKeepsPath(burst: seq<Event>, e0: Event)
    requires burst != []
    requires forall e :: e in burst ==> e.side == e0.side && e.path == e0.path && e.isDir == e0.isDir
    ensures var merged := MergeAll(burst); merged.side == e0.side && merged.path == e0.path && merged.isDir == e0.isDir
  {
    if |burst| > 1 {
      var init := burst[..|burst| - 1];
      assert forall e :: e in init ==> e in burst;
      MergeKeepsPath(init, e0);
    }
  }
}

module Debounce {
  import opened Bursts
  import opened Events
  import opened Options
  import opened Paths

  datatype Key = Key(side: Side, path: Path)

  datatype Fate = Pending | Emitting | Sent | Released | Cancelled | Dropped

  /** A slot, its timer, the callbacks of that timer waiting for the lock, and what became of it. */
  datatype Slot = Slot(key: Key, ev: Event, armed: bool, waiting: nat, fate: Fate, counted: bool)

  datatype Item = FromSlot(slot: nat, ev: Event) | FromMove(ev: Event)

  /** `moving` is the move being emitted by the push that holds the lock; `log` says where each push went. */
  datatype State = State(
    pending: map<Key, nat>, slots: seq<Slot>, moving: Option<Event>, closed: bool, finished: bool,
    abandoned: bool, emitting: int, out: seq<Item>, log: seq<(Event, nat)>)

  const START := State(map[], [], None, false, false, false, 0, [], [])

  datatype Action =
    | Push(ev: Event)
    | SendMove
    | ReleaseMove
    | Fire(slot: nat)
    | Callback(slot: nat)
    | Send(slot: nat)
    | Release(slot: nat)
    | Leave(slot: nat)
    | BeginClose
    | FinishClose
    | Abandon

  // ---------------------------------------------------------------------- actions

  function With(s: State, i: nat, slot: Slot): State
    requires i < |s.slots|
  {
    s.(slots := s.slots[i := slot])
  }

  /** Timer stopped, slot gone from the map. */
  function Cancel(s: State, k: Key): State {
    if k in s.pending && s.pending[k] < |s.slots| then
      With(s, s.pending[k], s.slots[s.pending[k]].(armed := false, fate := Cancelled)).(pending := s.pending - {k})
    else s
  }

  function PushMove(s: State, ev: Event): State {
    Cancel(Cancel(s, Key(ev.side, ev.from)), Key(ev.side, ev.path)).(moving := Some(ev))
  }

  function PushOther(s: State, ev: Event): State {
    var k := Key(ev.side, ev.path);
    if k in s.pending && s.pending[k] < |s.slots| then
      var i := s.pending[k];
      With(s, i, s.slots[i].(ev := Merge(s.slots[i].ev, ev), armed := true)).(log := s.log + [(ev, i)])
    else
      s.(slots := s.slots + [Slot(k, ev, true, 0, Pending, false)], pending := s.pending[k := |s.slots|],
         log := s.log + [(ev, |s.slots|)])
  }

  function DoPush(s: State, ev: Event): State {
    if s.closed then s else if ev.kind == Move then PushMove(s, ev) else PushOther(s, ev)
  }

  /** The callback decides, under the lock, whether the slot is still its own and the output still open. */
  function DoCallback(s: State, i: nat): State
    requires i < |s.slots| && s.slots[i].waiting > 0
  {
    var slot := s.slots[i].(waiting := s.slots[i].waiting - 1);
    if slot.key in s.pending && s.pending[slot.key] == i then
      var t := s.(pending := s.pending - {slot.key});
      if s.closed then With(t, i, slot.(fate := Dropped))
      else With(t, i, slot.(fate := Emitting, counted := true)).(emitting := s.emitting + 1)
    else With(s, i, slot)
  }

  function StopAll(slots: seq<Slot>): seq<Slot> {
    seq(|slots|, i requires 0 <= i < |slots| =>
      if slots[i].fate == Pending then slots[i].(armed := false, fate := Dropped) else slots[i])
  }

  function DoBeginClose(s: State): State {
    if s.closed then s else s.(closed := true, slots := StopAll(s.slots), pending := map[])
  }

  /** What each action needs: the lock if it takes it, and something to act on. Sending asks nothing of the output. */
  predicate Enabled(s: State, act: Action) {
    match act
    case Push(_) => s.moving.None?
    case SendMove => s.moving.Some?
    case ReleaseMove => s.moving.Some? && (s.closed || s.abandoned)
    case Fire(i) => i < |s.slots| && s.slots[i].armed
    case Callback(i) => s.moving.None? && i < |s.slots| && s.slots[i].waiting > 0
    case Send(i) => i < |s.slots| && s.slots[i].fate == Emitting
    case Release(i) => i < |s.slots| && s.slots[i].fate == Emitting && (s.closed || s.abandoned)
    case Leave(i) => i < |s.slots| && s.slots[i].counted && (s.slots[i].fate == Sent || s.slots[i].fate == Released)
    case BeginClose => s.moving.None?
    case FinishClose => s.closed && !s.finished && s.emitting == 0
    case Abandon => true
  }

  function Do(s: State, act: Action): State
    requires Enabled(s, act)
  {
    match act
    case Push(ev) => DoPush(s, ev)
    case SendMove => s.(moving := None, out := s.out + [FromMove(s.moving.value)])
    case ReleaseMove => s.(moving := None)
    case Fire(i) => With(s, i, s.slots[i].(armed := false, waiting := s.slots[i].waiting + 1))
    case Callback(i) => DoCallback(s, i)
    case Send(i) => With(s, i, s.slots[i].(fate := Sent)).(out := s.out + [FromSlot(i, s.slots[i].ev)])
    case Release(i) => With(s, i, s.slots[i].(fate := Released))
    case Leave(i) => With(s, i, s.slots[i].(counted := false)).(emitting := s.emitting - 1)
    case BeginClose => DoBeginClose(s)
    case FinishClose => s.(finished := true)
    case Abandon => s.(abandoned := true)
  }

  // ------------------------------------------------------------------- the invariant

  function CountedIn(slots: seq<Slot>): nat {
    if slots == [] then 0
    else CountedIn(slots[..|slots| - 1]) + if slots[|slots| - 1].counted then 1 else 0
  }

  /** The map holds exactly the slots still pending, each with its timer or a callback to come. */
  ghost predicate PendingRight(s: State) {
    && (forall k :: k in s.pending ==>
          s.pending[k] < |s.slots| && s.slots[s.pending[k]].key == k && s.slots[s.pending[k]].fate == Pending)
    && (forall i :: 0 <= i < |s.slots| && s.slots[i].fate == Pending ==>
          s.slots[i].key in s.pending && s.pending[s.slots[i].key] == i
          && (s.slots[i].armed || s.slots[i].waiting > 0))
  }

  ghost predicate EmissionsCounted(s: State) {
    && s.emitting == CountedIn(s.slots)
    && (forall i :: 0 <= i < |s.slots| ==>
          && (s.slots[i].fate == Emitting ==> s.slots[i].counted)
          && (s.slots[i].counted ==>
                s.slots[i].fate == Emitting || s.slots[i].fate == Sent || s.slots[i].fate == Released))
  }

  ghost predicate CloseRight(s: State) {
    && (s.closed ==> s.moving.None? && s.pending == map[])
    && (s.finished ==> s.closed && s.emitting == 0)
  }

  /** A slot is sent once, with the event it stands for, or not at all. */
  ghost predicate OutRight(s: State) {
    && (forall n :: 0 <= n < |s.out| && s.out[n].FromSlot? ==>
          s.out[n].slot < |s.slots| && s.slots[s.out[n].slot].fate == Sent && s.out[n].ev == s.slots[s.out[n].slot].ev)
    && (forall m, n :: 0 <= m < n < |s.out| && s.out[m].FromSlot? && s.out[n].FromSlot? ==>
          s.out[m].slot != s.out[n].slot)
    && (forall i :: 0 <= i < |s.slots| && s.slots[i].fate == Sent ==> FromSlot(i, s.slots[i].ev) in s.out)
  }

  /** The pushes a slot took in. */
  function Burst(log: seq<(Event, nat)>, i: nat): seq<Event> {
    if log == [] then []
    else Burst(log[..|log| - 1], i) + if log[|log| - 1].1 == i then [log[|log| - 1].0] else []
  }

  ghost predicate LogRight(s: State) {
    && (forall n :: 0 <= n < |s.log| ==> s.log[n].1 < |s.slots|)
    && (forall i :: 0 <= i < |s.slots| ==> Burst(s.log, i) != [] && s.slots[i].ev == MergeAll(Burst(s.log, i)))
  }

  ghost predicate Inv(s: State) {
    PendingRight(s) && EmissionsCounted(s) && CloseRight(s) && OutRight(s) && LogRight(s)
  }

  lemma {:induction false} CountUpdate(slots: seq<Slot>, i: nat, slot: Slot)
    requires i < |slots|
    ensures CountedIn(slots[i := slot]) ==
      CountedIn(slots) - (if slots[i].counted then 1 else 0) + (if slot.counted then 1 else 0)
  {
    var n := |slots| - 1;
    if i < n {
      CountUpdate(slots[..n], i, slot);
      assert slots[i := slot][..n] == slots[..n][i := slot];
    } else {
      assert slots[i := slot][..n] == slots[..n];
    }
  }

  lemma {:induction false} CountSame(slots: seq<Slot>, slots': seq<Slot>)
    requires |slots| == |slots'| && forall i :: 0 <= i < |slots| ==> slots[i].counted == slots'[i].counted
    ensures CountedIn(slots) == CountedIn(slots')
  {
    if slots != [] {
      CountSame(slots[..|slots| - 1], slots'[..|slots| - 1]);
    }
  }

  lemma {:induction false} BurstOfNew(log: seq<(Event, nat)>, i: nat)
    requires forall n :: 0 <= n < |log| ==> log[n].1 < i
    ensures Burst(log, i) == []
  {
    if log != [] { BurstOfNew(log[..|log| - 1], i); }
  }

  lemma BurstGrows(log: seq<(Event, nat)>, ev: Event, i: nat, j: nat)
    ensures Burst(log + [(ev, i)], j) == if i == j then Burst(log, j) + [ev] else Burst(log, j)
  {
    assert (log + [(ev, i)])[..|log|] == log;
    assert Burst(log, j) + [] == Burst(log, j);
  }

  lemma MergeGrows(burst: seq<Event>, ev: Event)
    ensures MergeAll(burst + [ev]) == if burst == [] then ev else Merge(MergeAll(burst), ev)
  {
    assert (burst + [ev])[..|burst|] == burst;
  }

  // --------------------------------------------------------- every action keeps it

  lemma CancelKeeps(s: State, k: Key)
    requires Inv(s) && !s.closed
    ensures Inv(Cancel(s, k)) && !Cancel(s, k).closed && Cancel(s, k).moving == s.moving
  {
    hide Burst, MergeAll, CountedIn;
    if k in s.pending {
      CountUpdate(s.slots, s.pending[k], s.slots[s.pending[k]].(armed := false, fate := Cancelled));
    }
  }

  lemma MergeIntoSlot(s: State, ev: Event)
    requires Inv(s) && !s.closed && Key(ev.side, ev.path) in s.pending
    ensures Inv(PushOther(s, ev))
  {
    hide Burst, MergeAll, CountedIn, Merge;
    var i := s.pending[Key(ev.side, ev.path)];
    var t := PushOther(s, ev);
    CountUpdate(s.slots, i, t.slots[i]);
    MergeGrows(Burst(s.log, i), ev);
    forall j | 0 <= j < |t.slots| ensures Burst(t.log, j) != [] && t.slots[j].ev == MergeAll(Burst(t.log, j)) {
      BurstGrows(s.log, ev, i, j);
    }
  }

  lemma NewSlot(s: State, ev: Event)
    requires Inv(s) && !s.closed && Key(ev.side, ev.path) !in s.pending
    ensures Inv(PushOther(s, ev))
  {
    hide Burst, MergeAll;
    var t, i := PushOther(s, ev), |s.slots|;
    assert t.slots[..i] == s.slots;
    BurstOfNew(s.log, i);
    MergeGrows([], ev);
    assert [] + [ev] == [ev];
    forall j | 0 <= j < |t.slots| ensures Burst(t.log, j) != [] && t.slots[j].ev == MergeAll(Burst(t.log, j)) {
      BurstGrows(s.log, ev, i, j);
    }
    assert forall m :: 0 <= m < |s.out| && s.out[m].FromSlot? ==> t.slots[s.out[m].slot] == s.slots[s.out[m].slot];
  }

  lemma PushKeeps(s: State, ev: Event)
    requires Inv(s) && s.moving.None?
    ensures Inv(DoPush(s, ev))
  {
    hide PendingRight, EmissionsCounted, OutRight, LogRight, PushOther;
    if !s.closed {
      if ev.kind == Move {
        CancelKeeps(s, Key(ev.side, ev.from));
        CancelKeeps(Cancel(s, Key(ev.side, ev.from)), Key(ev.side, ev.path));
        MovingIsApart(Cancel(Cancel(s, Key(ev.side, ev.from)), Key(ev.side, ev.path)), Some(ev));
      } else if Key(ev.side, ev.path) in s.pending {
        MergeIntoSlot(s, ev);
      } else {
        NewSlot(s, ev);
      }
    }
  }

  lemma MovingIsApart(s: State, moving: Option<Event>)
    requires Inv(s) && (s.closed ==> moving.None?)
    ensures Inv(s.(moving := moving))
  {
    hide Burst, MergeAll, CountedIn;
  }

  lemma TimerKeeps(s: State, i: nat)
    requires Inv(s) && Enabled(s, Fire(i))
    ensures Inv(Do(s, Fire(i)))
  {
    hide Burst, MergeAll, CountedIn;
    CountUpdate(s.slots, i, Do(s, Fire(i)).slots[i]);
  }

  lemma CallbackPending(s: State, i: nat)
    requires Inv(s) && Enabled(s, Callback(i))
    ensures PendingRight(DoCallback(s, i)) && CloseRight(DoCallback(s, i))
  {
    hide LogRight, OutRight, CountedIn;
  }

  lemma CallbackCounts(s: State, i: nat)
    requires Inv(s) && Enabled(s, Callback(i))
    ensures EmissionsCounted(DoCallback(s, i))
  {
    hide LogRight, OutRight, CountedIn, CloseRight;
    CountUpdate(s.slots, i, DoCallback(s, i).slots[i]);
  }

  lemma CallbackOut(s: State, i: nat)
    requires Inv(s) && Enabled(s, Callback(i))
    ensures OutRight(DoCallback(s, i)) && LogRight(DoCallback(s, i))
  {
    hide Burst, MergeAll, CountedIn, EmissionsCounted, CloseRight;
    var t := DoCallback(s, i);
    assert t.out == s.out && t.log == s.log && |t.slots| == |s.slots|;
    assert forall j :: 0 <= j < |s.slots| ==> t.slots[j].ev == s.slots[j].ev && (t.slots[j].fate == Sent <==> s.slots[j].fate == Sent);
    hide DoCallback;
  }

  lemma CallbackKeeps(s: State, i: nat)
    requires Inv(s) && Enabled(s, Callback(i))
    ensures Inv(DoCallback(s, i))
  {
    hide PendingRight, EmissionsCounted, OutRight, LogRight, CloseRight, DoCallback;
    CallbackPending(s, i);
    CallbackCounts(s, i);
    CallbackOut(s, i);
  }

  lemma SendKeeps(s: State, i: nat)
    requires Inv(s) && Enabled(s, Send(i))
    ensures Inv(Do(s, Send(i)))
  {
    hide Burst, MergeAll, CountedIn;
    var t := Do(s, Send(i));
    CountUpdate(s.slots, i, t.slots[i]);
    assert t.out[|s.out|] == FromSlot(i, t.slots[i].ev);
    forall j | 0 <= j < |t.slots| && t.slots[j].fate == Sent ensures FromSlot(j, t.slots[j].ev) in t.out {
      assert j != i ==> FromSlot(j, s.slots[j].ev) in s.out;
    }
  }

  lemma EmissionEndKeeps(s: State, act: Action, i: nat)
    requires Inv(s) && Enabled(s, act) && (act == Release(i) || act == Leave(i))
    ensures Inv(Do(s, act))
  {
    hide Burst, MergeAll, CountedIn;
    CountUpdate(s.slots, i, Do(s, act).slots[i]);
  }

  lemma MoveEndKeeps(s: State, act: Action)
    requires Inv(s) && Enabled(s, act) && (act == SendMove || act == ReleaseMove)
    ensures Inv(Do(s, act))
  {
    hide Burst, MergeAll, CountedIn;
  }

  lemma CloseKeeps(s: State)
    requires Inv(s) && s.moving.None?
    ensures Inv(DoBeginClose(s))
  {
    hide Burst, MergeAll, CountedIn;
    CountSame(s.slots, StopAll(s.slots));
  }

  lemma EveryActionKeeps(s: State, act: Action)
    requires Inv(s) && Enabled(s, act)
    ensures Inv(Do(s, act))
  {
    hide Inv, DoPush, DoCallback, DoBeginClose;
    match act {
      case Push(ev) => PushKeeps(s, ev);
      case SendMove => MoveEndKeeps(s, act);
      case ReleaseMove => MoveEndKeeps(s, act);
      case Fire(i) => TimerKeeps(s, i);
      case Callback(i) => CallbackKeeps(s, i);
      case Send(i) => SendKeeps(s, i);
      case Release(i) => EmissionEndKeeps(s, act, i);
      case Leave(i) => EmissionEndKeeps(s, act, i);
      case BeginClose => CloseKeeps(s);
      case FinishClose => FlagsKeep(s, act);
      case Abandon => FlagsKeep(s, act);
    }
  }

  lemma FlagsKeep(s: State, act: Action)
    requires Inv(s) && Enabled(s, act) && (act == FinishClose || act == Abandon)
    ensures Inv(Do(s, act))
  {
    hide Burst, MergeAll, CountedIn;
  }

  // ------------------------------------------------------------------- every run

  /** The state after a run from the start, if every action was possible when its turn came. */
  function Reached(run: seq<Action>): Option<State> {
    if run == [] then Some(START)
    else
      match Reached(run[..|run| - 1])
      case None => None
      case Some(s) => if Enabled(s, run[|run| - 1]) then Some(Do(s, run[|run| - 1])) else None
  }

  lemma {:induction false} InvHolds(run: seq<Action>)
    requires Reached(run).Some?
    ensures Inv(Reached(run).value)
  {
    hide Inv, Do, Enabled;
    if run == [] {
      StartHolds();
    } else {
      InvHolds(run[..|run| - 1]);
      EveryActionKeeps(Reached(run[..|run| - 1]).value, run[|run| - 1]);
    }
  }

  lemma StartHolds()
    ensures Inv(START)
  {
  }

  /** In every run: whenever something is about to be sent, the output channel is still open. */
  lemma NothingSentOnClosed(run: seq<Action>, act: Action)
    requires Reached(run).Some? && Enabled(Reached(run).value, act)
    requires act == SendMove || act.Send?
    ensures !Reached(run).value.finished
  {
    hide Reached;
    InvHolds(run);
    var s := Reached(run).value;
    if act.Send? { CountedSlot(s.slots, act.slot); }
  }

  lemma {:induction false} CountedSlot(slots: seq<Slot>, i: nat)
    requires i < |slots| && slots[i].counted
    ensures CountedIn(slots) > 0
  {
    if i < |slots| - 1 { CountedSlot(slots[..|slots| - 1], i); }
  }

  predicate Final(f: Fate) { f != Pending && f != Emitting }

  /** In every run: once Close has marked the debouncer closed, no emission starts and no push is taken. */
  lemma NoEmissionAfterClose(run: seq<Action>, act: Action)
    requires Reached(run).Some? && Reached(run).value.closed && Enabled(Reached(run).value, act)
    ensures var s, t := Reached(run).value, Do(Reached(run).value, act);
      && t.closed && t.moving.None? && |t.slots| == |s.slots| && t.log == s.log
      && forall i :: 0 <= i < |t.slots| && t.slots[i].fate == Emitting ==> s.slots[i].fate == Emitting
  {
    hide Reached, CountedIn, Burst, MergeAll;
    InvHolds(run);
  }

  /** In every run: a slot in the map has a live timer or a callback waiting for the lock. */
  lemma PendingWillBeServed(run: seq<Action>, k: Key)
    requires Reached(run).Some? && k in Reached(run).value.pending
    ensures var s := Reached(run).value; var i := s.pending[k];
      i < |s.slots| && s.slots[i].fate == Pending && (s.slots[i].armed || s.slots[i].waiting > 0)
  {
    hide Reached, CountedIn, Burst, MergeAll;
    InvHolds(run);
  }

  /** In every run that is not closing: a slot left in peace is emitted, with the event it stands for. */
  lemma QuietSlotIsEmitted(run: seq<Action>, k: Key)
    requires Reached(run).Some? && k in Reached(run).value.pending
    requires Reached(run).value.moving.None?
    ensures var s := Reached(run).value; var i := s.pending[k];
      var fire := if i < |s.slots| && s.slots[i].waiting == 0 then [Fire(i)] else [];
      var after := Reached(run + fire + [Callback(i)] + [Send(i)]);
      i < |s.slots| && after.Some? && after.value.out == s.out + [FromSlot(i, s.slots[i].ev)] && k !in after.value.pending
  {
    hide Inv, Reached, CountedIn, Burst, MergeAll;
    PendingWillBeServed(run, k);
    PendingMeansOpen(run, k);
    var s := Reached(run).value;
    var i := s.pending[k];
    var fire := if s.slots[i].waiting == 0 then [Fire(i)] else [];
    if s.slots[i].waiting == 0 { Extend(run, Fire(i)); } else { assert run + fire == run; }
    Extend(run + fire, Callback(i));
    Extend(run + fire + [Callback(i)], Send(i));
  }

  lemma Extend(run: seq<Action>, act: Action)
    ensures Reached(run + [act]) ==
      if Reached(run).Some? && Enabled(Reached(run).value, act) then Some(Do(Reached(run).value, act)) else None
  {
    hide Do, Enabled;
    assert (run + [act])[..|run|] == run;
  }

  lemma PendingMeansOpen(run: seq<Action>, k: Key)
    requires Reached(run).Some? && k in Reached(run).value.pending
    ensures var s := Reached(run).value; !s.closed && s.pending[k] < |s.slots| && s.slots[s.pending[k]].key == k
  {
    hide Reached, CountedIn, Burst, MergeAll, OutRight, LogRight, EmissionsCounted;
    InvHolds(run);
  }

  /** A fate once reached is never revised. */
  lemma FatesAreFinal(run: seq<Action>, act: Action, i: nat)
    requires Reached(run).Some? && Enabled(Reached(run).value, act)
    requires i < |Reached(run).value.slots| && Final(Reached(run).value.slots[i].fate)
    ensures var s, t := Reached(run).value, Do(Reached(run).value, act);
      i < |t.slots| && t.slots[i].fate == s.slots[i].fate && t.slots[i].ev == s.slots[i].ev
  {
    hide Reached, CountedIn, Burst, MergeAll, Merge, DoCallback, DoPush, EmissionsCounted, CloseRight,
      OutRight, LogRight;
    InvHolds(run);
    var s := Reached(run).value;
    match act {
      case Push(ev) => PushKeepsFates(s, ev, i);
      case Callback(j) => CallbackKeepsFates(s, j, i);
      case _ =>
    }
  }

  lemma PushKeepsFates(s: State, ev: Event, i: nat)
    requires PendingRight(s) && i < |s.slots| && Final(s.slots[i].fate)
    ensures var t := DoPush(s, ev);
      i < |t.slots| && t.slots[i].fate == s.slots[i].fate && t.slots[i].ev == s.slots[i].ev
  {
    hide Merge, Cancel;
    CancelKeepsFates(s, Key(ev.side, ev.from), i);
    hide PendingRight;
    CancelKeepsFates(Cancel(s, Key(ev.side, ev.from)), Key(ev.side, ev.path), i);
    if !s.closed && ev.kind != Move { OtherKeepsFates(s, ev, i); }
  }

  lemma OtherKeepsFates(s: State, ev: Event, i: nat)
    requires PendingRight(s) && i < |s.slots| && Final(s.slots[i].fate)
    ensures var t := PushOther(s, ev);
      i < |t.slots| && t.slots[i].fate == s.slots[i].fate && t.slots[i].ev == s.slots[i].ev
  {
    hide Merge;
  }

  lemma CancelKeepsFates(s: State, k: Key, i: nat)
    requires PendingRight(s) && i < |s.slots| && Final(s.slots[i].fate)
    ensures var t := Cancel(s, k); PendingRight(t) && i < |t.slots| && t.slots[i] == s.slots[i]
  {
  }

  lemma CallbackKeepsFates(s: State, j: nat, i: nat)
    requires PendingRight(s) && Enabled(s, Callback(j)) && i < |s.slots| && Final(s.slots[i].fate)
    ensures var t := DoCallback(s, j);
      i < |t.slots| && t.slots[i].fate == s.slots[i].fate && t.slots[i].ev == s.slots[i].ev
  {
  }

  function Emissions(out: seq<Item>, i: nat): nat {
    if out == [] then 0
    else Emissions(out[..|out| - 1], i) + if out[|out| - 1].FromSlot? && out[|out| - 1].slot == i then 1 else 0
  }

  lemma {:induction false} EmissionsAre(out: seq<Item>, i: nat)
    requires forall m, n :: 0 <= m < n < |out| && out[m].FromSlot? && out[n].FromSlot? ==> out[m].slot != out[n].slot
    ensures Emissions(out, i) == if exists n :: 0 <= n < |out| && out[n].FromSlot? && out[n].slot == i then 1 else 0
  {
    if out != [] {
      EmissionsAre(out[..|out| - 1], i);
    }
  }

  /**
   * Every event pushed before Close, moves apart, ends in exactly one slot. That slot stands for the merge
   * of all it took in; it is emitted once if that is its fate, and otherwise never; and when the output is
   * closed its fate is decided.
   */
  lemma EveryEventHasOneFate(run: seq<Action>, n: nat)
    requires Reached(run).Some? && n < |Reached(run).value.log|
    ensures var s := Reached(run).value; var (ev, i) := s.log[n];
      && i < |s.slots| && ev in Burst(s.log, i)
      && s.slots[i].ev == MergeAll(Burst(s.log, i))
      && Emissions(s.out, i) == (if s.slots[i].fate == Sent then 1 else 0)
      && (forall m :: 0 <= m < |s.out| && s.out[m].FromSlot? && s.out[m].slot == i ==> s.out[m].ev == s.slots[i].ev)
      && (s.finished ==> Final(s.slots[i].fate))
  {
    hide Reached, MergeAll;
    InvHolds(run);
    var s := Reached(run).value;
    var i := s.log[n].1;
    BurstHas(s.log, n);
    EmissionsAre(s.out, i);
    if s.slots[i].fate == Sent {
      assert FromSlot(i, s.slots[i].ev) in s.out;
    }
    if s.finished && s.slots[i].fate == Emitting { CountedSlot(s.slots, i); }
  }

  lemma {:induction false} BurstHas(log: seq<(Event, nat)>, n: nat)
    requires n < |log|
    ensures log[n].0 in Burst(log, log[n].1)
  {
    if n < |log| - 1 { BurstHas(log[..|log| - 1], n); }
  }
}

/** The debouncer as an object: each method is one section of code under its lock. */
module Debouncers {
  import opened Bursts
  import opened Debounce
  import opened Events
  import opened Options

  class Debouncer {
    var pending: map<Key, nat>
    var slots: seq<Slot>
    var moving: Option<Event>
    var closed: bool
    var finished: bool
    var abandoned: bool
    var emitting: int
    var out: seq<Item>
    ghost var log: seq<(Event, nat)>

    constructor ()
      ensures Now() == START && Inv(Now())
    {
      pending, slots, moving, closed, finished, abandoned, emitting, out := map[], [], None, false, false, false, 0, [];
      log := [];
      new;
      StartHolds();
    }

    ghost function Now(): State
      reads this
    {
      State(pending, slots, moving, closed, finished, abandoned, emitting, out, log)
    }

    method CancelLocked(k: Key)
      requires Inv(Now()) && !closed
      modifies this`pending, this`slots
      ensures Now() == Cancel(old(Now()), k) && Inv(Now())
    {
      CancelKeeps(Now(), k);
      if k in pending {
        var i := pending[k];
        slots := slots[i := slots[i].(armed := false, fate := Cancelled)];
        pending := pending - {k};
      }
    }

    /** With the lock free. A move keeps the lock until it has been emitted. */
    method Push(ev: Event)
      requires Inv(Now()) && moving.None?
      modifies this
      ensures Now() == DoPush(old(Now()), ev) && Inv(Now())
    {
      PushKeeps(Now(), ev);
      hide Inv, Cancel, PushOther;
      if closed { return; }
      if ev.kind == Move {
        CancelLocked(Key(ev.side, ev.from));
        CancelStaysOpen(old(Now()), Key(ev.side, ev.from));
        CancelLocked(Key(ev.side, ev.path));
        moving := Some(ev);
        return;
      }
      InvBounds(Now());
      TakeIn(ev);
    }

    /** Into the pending slot of its path, or a new one. */
    method TakeIn(ev: Event)
      requires forall k :: k in pending ==> pending[k] < |slots|
      modifies this`pending, this`slots, this`log
      ensures Now() == PushOther(old(Now()), ev)
    {
      hide Merge;
      var k := Key(ev.side, ev.path);
      if k in pending {
        var i := pending[k];
        slots := slots[i := slots[i].(ev := Merge(slots[i].ev, ev), armed := true)];
        log := log + [(ev, i)];
      } else {
        pending := pending[k := |slots|];
        log := log + [(ev, |slots|)];
        slots := slots + [Slot(k, ev, true, 0, Pending, false)];
      }
    }

    lemma CancelStaysOpen(s: State, k: Key)
      ensures Cancel(s, k).closed == s.closed
    {
    }

    lemma InvBounds(s: State)
      requires Inv(s)
      ensures forall k :: k in s.pending ==> s.pending[k] < |s.slots|
    {
    }

    /** What the callback of a timer does once it has the lock: whether it goes on to emit. */
    method Callback(i: nat) returns (emits: bool)
      requires Inv(Now()) && Enabled(Now(), Action.Callback(i))
      modifies this
      ensures Now() == DoCallback(old(Now()), i) && Inv(Now())
      ensures emits <==> slots[i].fate == Emitting && old(slots)[i].fate == Pending
    {
      hide Inv, PendingRight, EmissionsCounted, OutRight, LogRight, CloseRight;
      CallbackKeeps(Now(), i);
      StillPending(Now(), i);
      var slot := slots[i].(waiting := slots[i].waiting - 1);
      emits := slot.key in pending && pending[slot.key] == i;
      if emits { pending := pending - {slot.key}; }
      emits := emits && !closed;
      if emits {
        slot := slot.(fate := Emitting, counted := true);
        emitting := emitting + 1;
      }
      slots := slots[i := slot];
    }

    lemma StillPending(s: State, i: nat)
      requires Inv(s) && i < |s.slots|
      ensures s.slots[i].fate == Pending <==> s.slots[i].key in s.pending && s.pending[s.slots[i].key] == i
      ensures s.closed ==> s.pending == map[]
    {
    }

    /** A slot while only those in `waiting` have yet to be stopped. */
    ghost function Stopped(slot: Slot, waiting: map<Key, nat>): Slot {
      if slot.fate == Pending && slot.key !in waiting then slot.(armed := false, fate := Dropped) else slot
    }

    ghost predicate Matches(slots: seq<Slot>, waiting: map<Key, nat>) {
      && (forall k :: k in waiting ==>
            waiting[k] < |slots| && slots[waiting[k]].fate == Pending && slots[waiting[k]].key == k)
      && (forall i :: 0 <= i < |slots| && slots[i].fate == Pending && slots[i].key in waiting ==>
            waiting[slots[i].key] == i)
    }

    lemma StopOne(slots: seq<Slot>, all: seq<Slot>, waiting: map<Key, nat>, k: Key)
      requires Matches(all, waiting) && k in waiting && |slots| == |all|
      requires forall i :: 0 <= i < |all| ==> slots[i] == Stopped(all[i], waiting)
      ensures slots[waiting[k]] == all[waiting[k]] && Matches(all, waiting - {k})
      ensures var slots' := slots[waiting[k] := slots[waiting[k]].(armed := false, fate := Dropped)];
        forall i :: 0 <= i < |all| ==> slots'[i] == Stopped(all[i], waiting - {k})
    {
    }

    /** Stops the timers of all pending slots and forgets them. */
    method DropPending()
      requires Matches(slots, pending) && forall i :: 0 <= i < |slots| && slots[i].fate == Pending ==> slots[i].key in pending
      modifies this`pending, this`slots
      ensures pending == map[] && slots == StopAll(old(slots))
    {
      hide Matches, Stopped;
      ghost var all := slots;
      NoneStopped();
      while pending != map[]
        invariant |slots| == |all| && Matches(all, pending)
        invariant forall i :: 0 <= i < |all| ==> slots[i] == Stopped(all[i], pending)
        decreases |pending|
      {
        var k :| k in pending.Keys;
        Smaller(pending, k);
        StopOne(slots, all, pending, k);
        InRange(all, pending, k);
        slots := slots[pending[k] := slots[pending[k]].(armed := false, fate := Dropped)];
        pending := pending - {k};
      }
      AllStopped(slots, all);
    }

    lemma NoneStopped()
      requires forall i :: 0 <= i < |slots| && slots[i].fate == Pending ==> slots[i].key in pending
      ensures forall i :: 0 <= i < |slots| ==> slots[i] == Stopped(slots[i], pending)
    {
    }

    lemma AllStopped(slots: seq<Slot>, all: seq<Slot>)
      requires |slots| == |all| && forall i :: 0 <= i < |all| ==> slots[i] == Stopped(all[i], map[])
      ensures slots == StopAll(all)
    {
    }

    lemma InRange(all: seq<Slot>, waiting: map<Key, nat>, k: Key)
      requires Matches(all, waiting) && k in waiting
      ensures waiting[k] < |all|
    {
    }

    lemma Smaller(m: map<Key, nat>, k: Key)
      requires k in m
      ensures |m - {k}| < |m|
    {
      assert m.Keys == (m - {k}).Keys + {k};
      assert |m.Keys| == |m| && |(m - {k}).Keys| == |m - {k}|;
    }

    /** First phase of Close: no push is taken from here on, and what was waiting is dropped. */
    method BeginClose()
      requires Inv(Now()) && moving.None?
      modifies this
      ensures Now() == DoBeginClose(old(Now())) && Inv(Now())
    {
      CloseKeeps(Now());
      PendingIs(Now());
      hide Inv, StopAll;
      if closed { return; }
      closed := true;
      DropPending();
    }

    lemma PendingIs(s: State)
      requires Inv(s)
      ensures Matches(s.slots, s.pending)
      ensures forall i :: 0 <= i < |s.slots| && s.slots[i].fate == Pending ==> s.slots[i].key in s.pending
    {
    }
  }
}
