/**
 The in-process event forwarder: a bounded queue with a lossless and a best-effort
 tier, as steps interleaved with a consumer (`codex-rs/app-server-client/src/lib.rs`).
 */
module Forwarder {

  datatype Notification =
    | TurnCompleted(id: int)
    | ItemCompleted(id: int)
    | AgentMessageDelta(id: int)
    | PlanDelta(id: int)
    | ReasoningSummaryTextDelta(id: int)
    | ReasoningTextDelta(id: int)
    | OtherNotification(id: int)

  datatype ServerRequest = ChatgptAuthTokensRefresh(id: int) | OtherRequest(id: int)

  datatype Event = Lagged(skipped: nat) | ServerNotification(n: Notification) | ServerRequested(r: ServerRequest)

  /** `event_requires_delivery`: the lossless tier. */
  predicate RequiresDelivery(e: Event) {
    e.ServerNotification? && !e.n.OtherNotification?
  }

  /** A queued element: event number `index`, or a lag marker inserted by the worker. */
  datatype Slot = Passed(index: nat, event: Event) | Marker(skipped: nat)

  /** Where the worker is inside `forward_in_process_event`. */
  datatype Pc =
    | Idle
    | Start(event: Event)
    | Flushing(event: Event)
    | Sending(event: Event)
    | Trying(event: Event)

  const MAX_COUNT: nat := 0xFFFF_FFFF_FFFF_FFFF

  const REFRESH_UNSUPPORTED := -32000
  const OVERLOADED := -32001

  /** A server request failed back to the runtime: its number and the error code. */
  datatype Failure = Failure(index: nat, code: int)

  /**
   Queue and what the consumer took from it, the skip counter (`lost` are the increments
   saturation swallowed), the receiver, event polling, and the logs: events pulled from
   the runtime, those handed to the forwarder, and requests failed.
   */
  datatype State = State(
    capacity: nat, queue: seq<Slot>, consumed: seq<Slot>, skipped: nat, lost: nat,
    open: bool, polling: bool, pc: Pc,
    pulled: seq<Event>, forwarded: seq<Event>, failed: seq<Failure>)

  datatype Action = Pull(event: Event) | Advance | Pop | CloseReceiver

  function Begin(capacity: nat): State {
    State(if capacity == 0 then 1 else capacity, [], [], 0, 0, true, true, Idle, [], [], [])
  }

  predicate Room(s: State) {
    |s.queue| < s.capacity
  }

  predicate IsRefresh(e: Event) {
    e.ServerRequested? && e.r.ChatgptAuthTokensRefresh?
  }

  /** Blocking sends wait for room or for the receiver to go away. */
  predicate Enabled(s: State, a: Action) {
    match a
    case Pull(_) => s.pc.Idle? && s.polling
    case Advance => !s.pc.Idle? && ((s.pc.Flushing? || s.pc.Sending?) ==> !s.open || Room(s))
    case Pop => s.open && s.queue != []
    case CloseReceiver => s.open
  }

  function Push(s: State, slot: Slot): State {
    s.(queue := s.queue + [slot])
  }

  function Disable(s: State): State {
    s.(polling := false, pc := Idle)
  }

  /** The number of the event pulled last, which is the one being forwarded. */
  function Current(s: State): nat {
    if s.pulled == [] then 0 else |s.pulled| - 1
  }

  /** A best-effort event is dropped: counted, and failed when it is a server request. */
  function Drop(s: State, e: Event): State {
    s.(skipped := if s.skipped < MAX_COUNT then s.skipped + 1 else s.skipped,
       lost := if s.skipped < MAX_COUNT then s.lost else s.lost + 1,
       failed := if e.ServerRequested? then s.failed + [Failure(Current(s), OVERLOADED)] else s.failed,
       pc := Idle)
  }

  function FlushMarker(s: State): State {
    Push(s, Marker(s.skipped)).(skipped := 0)
  }

  function Worker(s: State): State
    requires Enabled(s, Advance)
  {
    match s.pc
    case Start(e) =>
      if s.skipped == 0 then s.(pc := if RequiresDelivery(e) then Sending(e) else Trying(e))
      else if RequiresDelivery(e) then s.(pc := Flushing(e))
      else if !s.open then Disable(s)
      else if Room(s) then FlushMarker(s).(pc := Trying(e))
      else Drop(s, e)
    case Flushing(e) => if !s.open then Disable(s) else FlushMarker(s).(pc := Sending(e))
    case Sending(e) => if !s.open then Disable(s) else Push(s, Passed(Current(s), e)).(pc := Idle)
    case Trying(e) =>
      if !s.open then Disable(s)
      else if Room(s) then Push(s, Passed(Current(s), e)).(pc := Idle)
      else Drop(s, e)
  }

  function Next(s: State, a: Action): State
    requires Enabled(s, a)
  {
    match a
    case Pull(e) =>
      if IsRefresh(e) then s.(pulled := s.pulled + [e], failed := s.failed + [Failure(|s.pulled|, REFRESH_UNSUPPORTED)])
      else s.(pulled := s.pulled + [e], forwarded := s.forwarded + [e], pc := Start(e))
    case Advance => Worker(s)
    case Pop => s.(consumed := s.consumed + [s.queue[0]], queue := s.queue[1..])
    case CloseReceiver => s.(open := false)
  }

  /** The worker's variables and the channel, updated one atomic operation at a time. */
  class InProcessWorker {
    const capacity: nat
    var queue: seq<Slot>
    var consumed: seq<Slot>
    var skipped: nat
    ghost var lost: nat
    var open: bool
    var polling: bool
    var pc: Pc
    var pulls: nat
    ghost var pulled: seq<Event>
    ghost var forwarded: seq<Event>
    var failed: seq<Failure>

    ghost function View(): State
      reads this
    {
      State(capacity, queue, consumed, skipped, lost, open, polling, pc, pulled, forwarded, failed)
    }

    ghost predicate Valid()
      reads this
    {
      pulls == |pulled| && (!pc.Idle? ==> pulls > 0)
    }

    constructor (channelCapacity: nat)
      ensures Valid() && View() == Begin(channelCapacity)
    {
      capacity := if channelCapacity == 0 then 1 else channelCapacity;
      queue, consumed, skipped, lost, open, polling, pc := [], [], 0, 0, true, true, Idle;
      pulls, pulled, forwarded, failed := 0, [], [], [];
    }

    /** An event comes out of the runtime; token refresh requests are refused on the spot. */
    method PullEvent(e: Event)
      requires Valid() && Enabled(View(), Pull(e))
      modifies this
      ensures Valid() && View() == Next(old(View()), Pull(e))
    {
      pulls, pulled := pulls + 1, pulled + [e];
      if IsRefresh(e) {
        failed := failed + [Failure(pulls - 1, REFRESH_UNSUPPORTED)];
        return;
      }
      forwarded := forwarded + [e];
      pc := Start(e);
    }

    method DropEvent(e: Event)
      requires Valid() && !pc.Idle?
      modifies this
      ensures Valid() && View() == Drop(old(View()), e)
    {
      if skipped < MAX_COUNT {
        skipped := skipped + 1;
      } else {
        lost := lost + 1;
      }
      if e.ServerRequested? {
        failed := failed + [Failure(pulls - 1, OVERLOADED)];
      }
      pc := Idle;
    }

    /** The next send or `try_send` of `forward_in_process_event`. */
    method AdvanceWorker()
      requires Valid() && Enabled(View(), Advance)
      modifies this
      ensures Valid() && View() == Next(old(View()), Advance)
    {
      var e := pc.event;
      if pc.Start? && (skipped == 0 || RequiresDelivery(e)) {
        pc := if skipped > 0 then Flushing(e) else if RequiresDelivery(e) then Sending(e) else Trying(e);
      } else if !open {
        polling := false;
        pc := Idle;
      } else if (pc.Start? || pc.Trying?) && |queue| >= capacity {
        DropEvent(e);
      } else if pc.Start? || pc.Flushing? {
        queue := queue + [Marker(skipped)];
        skipped := 0;
        pc := if pc.Start? then Trying(e) else Sending(e);
      } else {
        queue := queue + [Passed(pulls - 1, e)];
        pc := Idle;
      }
    }

    /** The consumer takes the next queued element. */
    method NextEvent() returns (slot: Slot)
      requires Valid() && Enabled(View(), Pop)
      modifies this
      ensures Valid() && View() == Next(old(View()), Pop) && slot == old(queue)[0]
    {
      slot := queue[0];
      queue := queue[1..];
      consumed := consumed + [slot];
    }

    method DropReceiver()
      requires Valid() && Enabled(View(), CloseReceiver)
      modifies this
      ensures Valid() && View() == Next(old(View()), CloseReceiver)
    {
      open := false;
    }
  }

  // ----- runs

  predicate Legal(s: State, run: seq<Action>)
    decreases |run|
  {
    run == [] || (Enabled(s, run[0]) && Legal(Next(s, run[0]), run[1..]))
  }

  function After(s: State, run: seq<Action>): State
    requires Legal(s, run)
    decreases |run|
  {
    if run == [] then s else After(Next(s, run[0]), run[1..])
  }

  // ----- where events are

  /** Everything put into the queue so far, in order. */
  function Slots(s: State): seq<Slot> {
    s.consumed + s.queue
  }

  datatype Place = Hole | Event(e: Event)

  function Holes(n: nat): seq<Place> {
    seq(n, i => Hole)
  }

  /** Slots with every marker replaced by as many holes as it reports. */
  function Expand(slots: seq<Slot>): seq<Place> {
    if slots == [] then []
    else Expand(slots[..|slots| - 1])
         + match slots[|slots| - 1] { case Passed(_, e) => [Place.Event(e)] case Marker(k) => Holes(k) }
  }

  function InFlight(s: State): seq<Place> {
    if s.pc.Idle? then [] else [Place.Event(s.pc.event)]
  }

  /** The consumer's account of the stream: slots, the unreported skips, the event under way. */
  function Account(s: State): seq<Place> {
    Expand(Slots(s)) + Holes(s.skipped) + InFlight(s)
  }

  predicate Explains(p: Place, e: Event) {
    p == Place.Event(e) || (p == Hole && !RequiresDelivery(e))
  }

  /** Position by position, an account shows the event itself or a hole for a droppable one. */
  ghost predicate Matches(account: seq<Place>, events: seq<Event>) {
    |account| == |events| && forall i :: 0 <= i < |events| ==> Explains(account[i], events[i])
  }

  // ----- the account is exact

  ghost predicate CounterClear(s: State) {
    (s.pc.Sending? || s.pc.Trying?) ==> s.skipped == 0
  }

  ghost predicate InFlightIsLast(s: State) {
    && (!s.pc.Idle? ==> s.forwarded != [] && s.forwarded[|s.forwarded| - 1] == s.pc.event)
    && (s.pc.Trying? ==> !RequiresDelivery(s.pc.event))
  }

  /** What is handed on of the events pulled: all but the refresh requests. */
  function Handed(pulled: seq<Event>): seq<Event> {
    if pulled == [] then []
    else Handed(pulled[..|pulled| - 1]) + if IsRefresh(pulled[|pulled| - 1]) then [] else [pulled[|pulled| - 1]]
  }

  lemma {:induction false} HandedSnoc(pulled: seq<Event>, e: Event)
    ensures Handed(pulled + [e]) == Handed(pulled) + if IsRefresh(e) then [] else [e]
  {
    assert (pulled + [e])[..|pulled|] == pulled;
  }

  /** While the receiver is open, the account has the stream's length up to saturation, and
      matches it when the counter never saturated. */
  ghost predicate Located(s: State) {
    && |s.queue| <= s.capacity
    && CounterClear(s) && InFlightIsLast(s) && s.forwarded == Handed(s.pulled)
    && s.skipped <= MAX_COUNT
    && (s.lost > 0 ==> |s.forwarded| > MAX_COUNT)
    && (s.open ==> |Account(s)| + s.lost == |s.forwarded|)
    && (s.open && s.lost == 0 ==> Matches(Account(s), s.forwarded))
  }

  lemma {:induction false} ExpandSnoc(slots: seq<Slot>, slot: Slot)
    ensures Expand(slots + [slot]) ==
      Expand(slots) + match slot { case Passed(_, e) => [Place.Event(e)] case Marker(k) => Holes(k) }
  {
    assert (slots + [slot])[..|slots|] == slots;
  }

  lemma {:induction false} PushedSlots(s: State, slot: Slot)
    ensures Slots(Push(s, slot)) == Slots(s) + [slot]
  {
  }

  lemma {:induction false} DropLocated(s: State, e: Event)
    requires Located(s) && s.open && !s.pc.Idle? && e == s.pc.event && !RequiresDelivery(e)
    ensures Located(Drop(s, e))
  {
    var s' := Drop(s, e);
    assert Slots(s') == Slots(s);
    var x := Expand(Slots(s));
    assert Account(s) == x + Holes(s.skipped) + [Place.Event(e)];
    assert Account(s') == x + Holes(s'.skipped);
    assert s.skipped < MAX_COUNT ==> Holes(s'.skipped) == Holes(s.skipped) + [Hole];
  }

  lemma {:induction false} FlushLocated(s: State, pc: Pc)
    requires Located(s) && s.open && !s.pc.Idle? && Room(s)
    requires !pc.Idle? && pc.event == s.pc.event && (pc.Trying? ==> !RequiresDelivery(pc.event))
    ensures Located(FlushMarker(s).(pc := pc))
  {
    var s' := FlushMarker(s).(pc := pc);
    PushedSlots(s, Marker(s.skipped));
    assert Slots(s') == Slots(s) + [Marker(s.skipped)];
    ExpandSnoc(Slots(s), Marker(s.skipped));
    assert Account(s') == Account(s);
  }

  lemma {:induction false} PassLocated(s: State)
    requires Located(s) && s.open && (s.pc.Sending? || s.pc.Trying?) && Room(s)
    ensures Located(Push(s, Passed(Current(s), s.pc.event)).(pc := Idle))
  {
    var slot := Passed(Current(s), s.pc.event);
    var s' := Push(s, slot).(pc := Idle);
    PushedSlots(s, slot);
    assert Slots(s') == Slots(s) + [slot];
    ExpandSnoc(Slots(s), slot);
    assert Account(s') == Account(s);
  }

  lemma {:induction false} WorkerLocated(s: State)
    requires Located(s) && Enabled(s, Advance)
    ensures Located(Worker(s))
  {
    match s.pc
    case Start(e) =>
      if s.skipped == 0 || RequiresDelivery(e) {
        assert Account(Worker(s)) == Account(s);
      } else if s.open {
        if Room(s) {
          FlushLocated(s, Trying(e));
        } else {
          DropLocated(s, e);
        }
      }
    case Flushing(e) =>
      if s.open {
        FlushLocated(s, Sending(e));
      }
    case Sending(e) =>
      if s.open {
        PassLocated(s);
      }
    case Trying(e) =>
      if s.open {
        if Room(s) {
          PassLocated(s);
        } else {
          DropLocated(s, e);
        }
      }
  }

  lemma {:induction false} PullLocated(s: State, e: Event)
    requires Located(s) && Enabled(s, Pull(e))
    ensures Located(Next(s, Pull(e)))
  {
    var s' := Next(s, Pull(e));
    assert Slots(s') == Slots(s);
    HandedSnoc(s.pulled, e);
    if IsRefresh(e) {
      assert Account(s') == Account(s);
    } else {
      assert Account(s') == Account(s) + [Place.Event(e)];
    }
  }

  lemma {:induction false} StepLocated(s: State, a: Action)
    requires Located(s) && Enabled(s, a)
    ensures Located(Next(s, a)) && Next(s, a).capacity == s.capacity
  {
    match a
    case Pull(e) => PullLocated(s, e);
    case Advance => WorkerLocated(s);
    case Pop => PopLocated(s);
    case CloseReceiver =>
  }

  lemma {:induction false} PopLocated(s: State)
    requires Located(s) && Enabled(s, Pop)
    ensures Located(Next(s, Pop))
  {
    assert Slots(Next(s, Pop)) == Slots(s);
    assert Account(Next(s, Pop)) == Account(s);
  }

  lemma {:induction false} RunLocated(s: State, run: seq<Action>)
    requires Located(s) && Legal(s, run)
    ensures Located(After(s, run)) && After(s, run).capacity == s.capacity
    decreases |run|
  {
    if run != [] {
      StepLocated(s, run[0]);
      RunLocated(Next(s, run[0]), run[1..]);
    }
  }

  // ----- the lossless tier

  function Lossless(events: seq<Event>): seq<Event> {
    if events == [] then []
    else Lossless(events[..|events| - 1])
         + if RequiresDelivery(events[|events| - 1]) then [events[|events| - 1]] else []
  }

  function LosslessIn(account: seq<Place>): seq<Event> {
    if account == [] then []
    else LosslessIn(account[..|account| - 1])
         + match account[|account| - 1] { case Event(e) => (if RequiresDelivery(e) then [e] else []) case Hole => [] }
  }

  lemma {:induction false} LosslessSurvive(account: seq<Place>, events: seq<Event>)
    requires Matches(account, events)
    ensures LosslessIn(account) == Lossless(events)
    decreases |events|
  {
    if events != [] {
      var n := |events| - 1;
      assert Explains(account[n], events[n]);
      LosslessSurvive(account[..n], events[..n]);
    }
  }

  /**
   In every run, while the receiver is open: the account matches the stream exactly
   when the counter never saturated, which it cannot before `MAX_COUNT` events; then
   every lossless event is there once and in order. The queue is never over capacity.
   */
  lemma {:induction false} LossIsExactlyLocated(capacity: nat, run: seq<Action>)
    requires Legal(Begin(capacity), run)
    ensures var s := After(Begin(capacity), run);
      && |s.queue| <= s.capacity == (if capacity == 0 then 1 else capacity)
      && s.forwarded == Handed(s.pulled)
      && (s.open ==> (Matches(Account(s), s.forwarded) <==> s.lost == 0))
      && (|s.forwarded| <= 0xFFFF_FFFF_FFFF_FFFF ==> s.lost == 0)
      && (s.open && s.lost == 0 ==> LosslessIn(Account(s)) == Lossless(s.forwarded))
  {
    assert Account(Begin(capacity)) == [];
    RunLocated(Begin(capacity), run);
    var s := After(Begin(capacity), run);
    if s.open && s.lost == 0 {
      LosslessSurvive(Account(s), s.forwarded);
    }
  }

  // ----- when events are dropped, and when the worker waits

  /** Transcript deltas and completions, which must survive a full queue. */
  predicate IsTranscript(e: Event) {
    match e
    case ServerNotification(n) =>
      || n.TurnCompleted? || n.ItemCompleted? || n.AgentMessageDelta? || n.PlanDelta?
      || n.ReasoningSummaryTextDelta? || n.ReasoningTextDelta?
    case _ => false
  }

  /** Events are polled while the receiver is there; only transcript events are sent by waiting. */
  ghost predicate Tiered(s: State) {
    && (s.open ==> s.polling)
    && (s.pc.Flushing? || s.pc.Sending? ==> IsTranscript(s.pc.event))
    && (s.pc.Flushing? ==> s.skipped > 0)
    && (s.pc.Trying? ==> !IsTranscript(s.pc.event))
  }

  lemma {:induction false} RunTiered(s: State, run: seq<Action>)
    requires Tiered(s) && Legal(s, run)
    ensures Tiered(After(s, run))
    decreases |run|
  {
    if run != [] {
      assert Tiered(Next(s, run[0]));
      RunTiered(Next(s, run[0]), run[1..]);
    }
  }

  /** One more event was skipped, or one more request failed for want of room. */
  predicate DropsOne(s: State, s': State) {
    || s'.skipped + s'.lost > s.skipped + s.lost
    || (|s'.failed| > |s.failed| && s'.failed[|s.failed|].code == OVERLOADED)
  }

  /** The next step hands the event to the queue without waiting, or the lag marker before it. */
  predicate TriesToSend(s: State) {
    s.pc.Trying? || (s.pc.Start? && s.skipped > 0 && !IsTranscript(s.pc.event))
  }

  lemma {:induction false} StepDrops(s: State, a: Action)
    requires Tiered(s) && |s.queue| <= s.capacity && Enabled(s, a)
    ensures DropsOne(s, Next(s, a)) <==> a.Advance? && s.open && TriesToSend(s) && |s.queue| == s.capacity
  {
    match a
    case Advance => AdvanceDrops(s);
    case _ => assert !DropsOne(s, Next(s, a));
  }

  lemma {:induction false} AdvanceDrops(s: State)
    requires Tiered(s) && |s.queue| <= s.capacity && Enabled(s, Advance)
    ensures DropsOne(s, Worker(s)) <==> s.open && TriesToSend(s) && |s.queue| == s.capacity
  {
  }

  /**
   In every run a step drops an event exactly when it tries to send to an open receiver
   whose queue is full; what it drops is no transcript event.
   */
  lemma {:induction false} DropsExactlyWhenFull(capacity: nat, run: seq<Action>, a: Action)
    requires Legal(Begin(capacity), run) && Enabled(After(Begin(capacity), run), a)
    ensures var s := After(Begin(capacity), run);
      && (DropsOne(s, Next(s, a)) <==> a.Advance? && s.open && TriesToSend(s) && |s.queue| == s.capacity)
      && (DropsOne(s, Next(s, a)) ==> !IsTranscript(s.pc.event))
  {
    assert Account(Begin(capacity)) == [];
    RunLocated(Begin(capacity), run);
    RunTiered(Begin(capacity), run);
    StepDrops(After(Begin(capacity), run), a);
  }

  /**
   In every run the worker waits only to send a transcript event to an open receiver
   whose queue is full, and stops polling only once the receiver is gone.
   */
  lemma {:induction false} WaitsExactlyWhenFull(capacity: nat, run: seq<Action>)
    requires Legal(Begin(capacity), run)
    ensures var s := After(Begin(capacity), run);
      && (!s.pc.Idle? && !Enabled(s, Advance) <==>
          (s.pc.Flushing? || s.pc.Sending?) && s.open && |s.queue| == s.capacity)
      && (!s.pc.Idle? && !Enabled(s, Advance) ==> IsTranscript(s.pc.event))
      && (s.open ==> s.polling)
  {
    assert Account(Begin(capacity)) == [];
    RunLocated(Begin(capacity), run);
    RunTiered(Begin(capacity), run);
  }

  /** The receiver stays and the queue is below capacity before every step and after the last. */
  predicate AlwaysRoom(s: State, run: seq<Action>)
    requires Legal(s, run)
    decreases |run|
  {
    s.open && |s.queue| < s.capacity && (run != [] ==> AlwaysRoom(Next(s, run[0]), run[1..]))
  }

  ghost predicate Lossfree(s: State) {
    && s.open && s.skipped == 0 && s.lost == 0
    && (forall k :: 0 <= k < |Slots(s)| ==> Slots(s)[k].Passed?)
    && (forall k :: 0 <= k < |s.failed| ==> s.failed[k].code != OVERLOADED)
  }

  lemma {:induction false} StepLossfree(s: State, a: Action)
    requires Lossfree(s) && Tiered(s) && |s.queue| < s.capacity && Enabled(s, a) && Next(s, a).open
    ensures Lossfree(Next(s, a))
  {
    var s' := Next(s, a);
    if |s'.queue| > |s.queue| {
      assert Slots(s') == Slots(s) + [Passed(Current(s), s.pc.event)];
    } else {
      assert Slots(s') == Slots(s);
    }
  }

  lemma {:induction false} RunLossfree(s: State, run: seq<Action>)
    requires Lossfree(s) && Tiered(s) && Legal(s, run) && AlwaysRoom(s, run)
    ensures Lossfree(After(s, run))
    decreases |run|
  {
    if run != [] {
      StepLossfree(s, run[0]);
      assert Tiered(Next(s, run[0]));
      RunLossfree(Next(s, run[0]), run[1..]);
    }
  }

  lemma {:induction false} ExpandPassed(slots: seq<Slot>)
    requires forall k :: 0 <= k < |slots| ==> slots[k].Passed?
    ensures forall k :: 0 <= k < |Expand(slots)| ==> Expand(slots)[k] != Hole
    decreases |slots|
  {
    if slots != [] {
      ExpandPassed(slots[..|slots| - 1]);
    }
  }

  // ----- a run in which the counter saturates

  lemma {:induction false} RunConcat(s: State, a: seq<Action>, b: seq<Action>)
    requires Legal(s, a) && Legal(After(s, a), b)
    ensures Legal(s, a + b) && After(s, a + b) == After(After(s, a), b)
    decreases |a|
  {
    if a == [] {
      assert a + b == b;
    } else {
      assert (a + b)[1..] == a[1..] + b;
      RunConcat(Next(s, a[0]), a[1..], b);
    }
  }

  const DROPPABLE := ServerNotification(OtherNotification(0))

  /** `n` droppable events, none of which finds room. */
  function Flood(n: nat): seq<Action> {
    if n == 0 then [] else [Pull(DROPPABLE), Advance] + Flood(n - 1)
  }

  /** The consumer does not read: the queue is full, and something has been skipped already. */
  predicate Stuck(s: State) {
    s.open && s.polling && s.pc.Idle? && !Room(s) && 0 < s.skipped <= MAX_COUNT
  }

  lemma {:induction false} FloodOnce(s: State)
    requires Stuck(s)
    ensures Legal(s, [Pull(DROPPABLE), Advance])
    ensures var s' := After(s, [Pull(DROPPABLE), Advance]);
      && Stuck(s')
      && s'.skipped == (if s.skipped < MAX_COUNT then s.skipped + 1 else MAX_COUNT)
      && s'.lost == (if s.skipped < MAX_COUNT then s.lost else s.lost + 1)
  {
    var s1 := Next(s, Pull(DROPPABLE));
    var s2 := Next(s1, Advance);
    assert [Pull(DROPPABLE), Advance][1..] == [Advance];
    assert [Advance][1..] == [];
    assert Legal(s2, []) && Legal(s1, [Advance]);
    assert After(s1, [Advance]) == After(s2, []) == s2;
  }

  lemma {:induction false} Flooded(s: State, n: nat)
    requires Stuck(s)
    ensures Legal(s, Flood(n))
    ensures var s' := After(s, Flood(n));
      s'.open && s'.lost == s.lost + if n > MAX_COUNT - s.skipped then n - (MAX_COUNT - s.skipped) else 0
    decreases n
  {
    if n > 0 {
      FloodOnce(s);
      var s' := After(s, [Pull(DROPPABLE), Advance]);
      Flooded(s', n - 1);
      RunConcat(s, [Pull(DROPPABLE), Advance], Flood(n - 1));
    }
  }

  /** With room for one: the first event is queued, the second is dropped. */
  const OPENING := [Pull(DROPPABLE), Advance, Advance, Pull(DROPPABLE), Advance, Advance]

  lemma {:induction false} OpeningStuck()
    ensures Legal(Begin(1), OPENING)
    ensures var s := After(Begin(1), OPENING); Stuck(s) && s.skipped == 1 && s.lost == 0
  {
    var e := DROPPABLE;
    var s0 := Begin(1);
    var s1 := Next(s0, Pull(e));
    var s2 := Next(s1, Advance);
    var s3 := Next(s2, Advance);
    assert s3.queue == [Passed(0, e)];
    var s4 := Next(s3, Pull(e));
    var s5 := Next(s4, Advance);
    var s6 := Next(s5, Advance);
    TwoSteps(s4, Advance, Advance);
    TwoSteps(s2, Advance, Pull(e));
    TwoSteps(s0, Pull(e), Advance);
    RunConcat(s2, [Advance, Pull(e)], [Advance, Advance]);
    RunConcat(s0, [Pull(e), Advance], [Advance, Pull(e)] + [Advance, Advance]);
    assert OPENING == [Pull(e), Advance] + ([Advance, Pull(e)] + [Advance, Advance]);
  }

  lemma {:induction false} TwoSteps(s: State, a: Action, b: Action)
    requires Enabled(s, a) && Enabled(Next(s, a), b)
    ensures Legal(s, [a, b]) && After(s, [a, b]) == Next(Next(s, a), b)
  {
    assert [a, b][1..] == [b];
    assert [b][1..] == [];
    assert Legal(Next(Next(s, a), b), []) && Legal(Next(s, a), [b]);
    assert After(Next(s, a), [b]) == After(Next(Next(s, a), b), []);
  }

  /** A consumer that stops reading: the counter saturates, and the account no longer matches the stream. */
  lemma {:induction false} SaturationExample(run: seq<Action>)
    requires run == OPENING + Flood(MAX_COUNT)
    ensures Legal(Begin(1), run)
    ensures var s := After(Begin(1), run); s.open && s.lost == 1 && !Matches(Account(s), s.forwarded)
  {
    OpeningStuck();
    Flooded(After(Begin(1), OPENING), MAX_COUNT);
    RunConcat(Begin(1), OPENING, Flood(MAX_COUNT));
    LossIsExactlyLocated(1, run);
  }

  // ----- server requests

  /** Events pulled and done with. */
  function Handled(s: State): int {
    |s.pulled| - if s.pc.Idle? then 0 else 1
  }

  ghost predicate Failed(s: State, i: nat) {
    exists k :: 0 <= k < |s.failed| && s.failed[k].index == i
  }

  ghost predicate Enqueued(s: State, i: nat) {
    exists k :: 0 <= k < |Slots(s)| && Slots(s)[k].Passed? && Slots(s)[k].index == i
  }

  /** Queued events carry their own number, and numbers grow along the queue. */
  ghost predicate SlotsAreNumbered(s: State) {
    && (forall k :: 0 <= k < |Slots(s)| && Slots(s)[k].Passed? ==>
          && Slots(s)[k].index < Handled(s) && s.pulled[Slots(s)[k].index] == Slots(s)[k].event
          && !IsRefresh(Slots(s)[k].event))
    && (forall j, k :: 0 <= j < k < |Slots(s)| && Slots(s)[j].Passed? && Slots(s)[k].Passed? ==>
          Slots(s)[j].index < Slots(s)[k].index)
  }

  /** Failures are distinct requests that were not enqueued; the code tells a refresh from an overload. */
  ghost predicate FailuresAreRequests(s: State) {
    && (forall k :: 0 <= k < |s.failed| ==> s.failed[k].index < Handled(s))
    && (forall k :: 0 <= k < |s.failed| ==>
          s.pulled[s.failed[k].index].ServerRequested?
          && s.failed[k].code == (if s.pulled[s.failed[k].index].r.ChatgptAuthTokensRefresh? then -32000 else -32001))
    && (forall j, k :: 0 <= j < k < |s.failed| ==> s.failed[j].index < s.failed[k].index)
    && (forall k :: 0 <= k < |s.failed| ==> !Enqueued(s, s.failed[k].index))
  }

  ghost predicate RequestsAnswered(s: State) {
    s.open ==> forall i :: 0 <= i < Handled(s) && s.pulled[i].ServerRequested? ==> Enqueued(s, i) || Failed(s, i)
  }

  ghost predicate InFlightIsPulled(s: State) {
    !s.pc.Idle? ==> s.pulled != [] && s.pulled[|s.pulled| - 1] == s.pc.event && !IsRefresh(s.pc.event)
  }

  ghost predicate Accounted(s: State) {
    SlotsAreNumbered(s) && FailuresAreRequests(s) && RequestsAnswered(s) && InFlightIsPulled(s)
  }

  lemma {:induction false} SameSlotsAccounted(s: State, s': State)
    requires Accounted(s) && InFlightIsPulled(s')
    requires Slots(s') == Slots(s) && s'.failed == s.failed && s.pulled <= s'.pulled
    requires Handled(s') >= Handled(s) && (s'.open ==> s.open && Handled(s') == Handled(s))
    ensures Accounted(s')
  {
    assert forall i :: Enqueued(s', i) <==> Enqueued(s, i);
    assert forall i :: Failed(s', i) <==> Failed(s, i);
  }

  lemma {:induction false} PassAccounted(s: State)
    requires Accounted(s) && s.open && !s.pc.Idle?
    ensures Accounted(Push(s, Passed(Current(s), s.pc.event)).(pc := Idle))
  {
    var slot := Passed(Current(s), s.pc.event);
    var s' := Push(s, slot).(pc := Idle);
    var n := |Slots(s)|;
    assert Slots(s') == Slots(s) + [slot];
    assert Slots(s')[n] == slot && Enqueued(s', Current(s));
    forall i | Enqueued(s, i)
      ensures Enqueued(s', i)
    {
      var k :| 0 <= k < n && Slots(s)[k].Passed? && Slots(s)[k].index == i;
      assert Slots(s')[k] == Slots(s)[k];
    }
    forall i | Enqueued(s', i) && i != Current(s)
      ensures Enqueued(s, i)
    {
      var k :| 0 <= k < |Slots(s')| && Slots(s')[k].Passed? && Slots(s')[k].index == i;
      assert Slots(s)[k] == Slots(s')[k];
    }
    assert forall i :: Failed(s', i) <==> Failed(s, i);
  }

  lemma {:induction false} FlushAccounted(s: State, pc: Pc)
    requires Accounted(s) && s.open && !s.pc.Idle? && !pc.Idle? && pc.event == s.pc.event
    ensures Accounted(FlushMarker(s).(pc := pc))
  {
    var s' := FlushMarker(s).(pc := pc);
    assert Slots(s') == Slots(s) + [Marker(s.skipped)];
    forall i
      ensures Enqueued(s', i) <==> Enqueued(s, i)
    {
      if Enqueued(s, i) {
        var k :| 0 <= k < |Slots(s)| && Slots(s)[k].Passed? && Slots(s)[k].index == i;
        assert Slots(s')[k] == Slots(s)[k];
      }
      if Enqueued(s', i) {
        var k :| 0 <= k < |Slots(s')| && Slots(s')[k].Passed? && Slots(s')[k].index == i;
        assert Slots(s)[k] == Slots(s')[k];
      }
    }
    assert forall i :: Failed(s', i) <==> Failed(s, i);
  }

  lemma {:induction false} FailedSnoc(s: State, s': State, f: Failure)
    requires s'.failed == s.failed + [f]
    ensures forall i :: Failed(s', i) <==> Failed(s, i) || i == f.index
  {
    assert s'.failed[|s.failed|] == f;
    forall i | Failed(s, i)
      ensures Failed(s', i)
    {
      var k :| 0 <= k < |s.failed| && s.failed[k].index == i;
      assert s'.failed[k] == s.failed[k];
    }
  }

  /** One more failure, of the request that is now done with. */
  lemma {:induction false} FailAccounted(s: State, s': State, f: Failure)
    requires Accounted(s) && Slots(s') == Slots(s) && s.pulled <= s'.pulled && s'.open == s.open && s'.pc.Idle?
    requires s'.failed == s.failed + [f] && f.index == Handled(s) && Handled(s') == Handled(s) + 1
    requires s'.pulled[f.index].ServerRequested?
    requires f.code == if IsRefresh(s'.pulled[f.index]) then REFRESH_UNSUPPORTED else OVERLOADED
    ensures Accounted(s')
  {
    FailedSnoc(s, s', f);
    assert forall i :: Enqueued(s', i) <==> Enqueued(s, i);
  }

  lemma {:induction false} DropAccounted(s: State)
    requires Accounted(s) && s.open && !s.pc.Idle?
    ensures Accounted(Drop(s, s.pc.event))
  {
    var s' := Drop(s, s.pc.event);
    assert Slots(s') == Slots(s);
    if s.pc.event.ServerRequested? {
      FailAccounted(s, s', Failure(Current(s), OVERLOADED));
    } else {
      LoseAccounted(s, s');
    }
  }

  /** An event that is no request is done with and leaves no trace. */
  lemma {:induction false} LoseAccounted(s: State, s': State)
    requires Accounted(s) && Slots(s') == Slots(s) && s'.pulled == s.pulled && s'.open == s.open && s'.pc.Idle?
    requires s'.failed == s.failed && Handled(s') == Handled(s) + 1 && !s.pulled[Handled(s)].ServerRequested?
    ensures Accounted(s')
  {
    assert forall i :: Enqueued(s', i) <==> Enqueued(s, i);
    assert forall i :: Failed(s', i) <==> Failed(s, i);
  }

  lemma {:induction false} WorkerAccounted(s: State)
    requires Accounted(s) && Enabled(s, Advance)
    ensures Accounted(Worker(s))
  {
    var s' := Worker(s);
    if s.open && s'.failed == s.failed && |s'.queue| > |s.queue| {
      if s.pc.Start? {
        FlushAccounted(s, Trying(s.pc.event));
      } else if s.pc.Flushing? {
        FlushAccounted(s, Sending(s.pc.event));
      } else {
        PassAccounted(s);
      }
    } else if s.open && s'.pc.Idle? {
      DropAccounted(s);
    } else {
      SameSlotsAccounted(s, s');
    }
  }

  lemma {:induction false} StepAccounted(s: State, a: Action)
    requires Accounted(s) && Enabled(s, a)
    ensures Accounted(Next(s, a))
  {
    var s' := Next(s, a);
    match a
    case Advance => WorkerAccounted(s);
    case Pull(e) =>
      assert Slots(s') == Slots(s);
      if IsRefresh(e) {
        FailAccounted(s, s', Failure(|s.pulled|, REFRESH_UNSUPPORTED));
      } else {
        SameSlotsAccounted(s, s');
      }
    case _ =>
      assert Slots(s') == Slots(s);
      SameSlotsAccounted(s, s');
  }

  lemma {:induction false} RunAccounted(s: State, run: seq<Action>)
    requires Accounted(s) && Legal(s, run)
    ensures Accounted(After(s, run))
    decreases |run|
  {
    if run != [] {
      StepAccounted(s, run[0]);
      RunAccounted(Next(s, run[0]), run[1..]);
    }
  }

  lemma {:induction false} BeginAccounted(capacity: nat)
    ensures Accounted(Begin(capacity))
  {
    assert Slots(Begin(capacity)) == [];
  }

  /**
   In every run, while the receiver is open, every server request pulled and done with
   was either enqueued once or failed once, never both and never neither; a token
   refresh is always among the failures, with its own code.
   */
  lemma {:induction false} RequestsAreEnqueuedOrFailed(capacity: nat, run: seq<Action>, i: nat)
    requires Legal(Begin(capacity), run)
    requires var s := After(Begin(capacity), run); s.open && i < Handled(s) && s.pulled[i].ServerRequested?
    ensures var s := After(Begin(capacity), run);
      && (Enqueued(s, i) <==> !Failed(s, i))
      && (s.pulled[i].r.ChatgptAuthTokensRefresh? ==> Failed(s, i))
      && FailuresAreRequests(s) && SlotsAreNumbered(s)
  {
    BeginAccounted(capacity);
    RunAccounted(Begin(capacity), run);
    var s := After(Begin(capacity), run);
    if Failed(s, i) {
      var k :| 0 <= k < |s.failed| && s.failed[k].index == i;
    }
  }

  /**
   A run whose queue always has room and whose receiver stays: the account is the stream
   itself, and of the requests done with the refreshes were failed and all others enqueued.
   */
  lemma {:induction false} NothingIsLostWithRoom(capacity: nat, run: seq<Action>)
    requires Legal(Begin(capacity), run) && AlwaysRoom(Begin(capacity), run)
    ensures var s := After(Begin(capacity), run);
      && |Account(s)| == |s.forwarded|
      && (forall k :: 0 <= k < |s.forwarded| ==> Account(s)[k] == Place.Event(s.forwarded[k]))
      && (forall k :: 0 <= k < |s.failed| ==> s.failed[k].code == -32000)
      && (forall i ::
            0 <= i < Handled(s) && s.pulled[i].ServerRequested? && s.pulled[i].r.OtherRequest? ==> Enqueued(s, i))
  {
    var s := After(Begin(capacity), run);
    RunLossfree(Begin(capacity), run);
    LossIsExactlyLocated(capacity, run);
    AccountIsStream(s);
    BeginAccounted(capacity);
    RunAccounted(Begin(capacity), run);
    RequestsPass(s);
  }

  lemma {:induction false} AccountIsStream(s: State)
    requires Lossfree(s) && Matches(Account(s), s.forwarded)
    ensures forall k :: 0 <= k < |s.forwarded| ==> Account(s)[k] == Place.Event(s.forwarded[k])
  {
    ExpandPassed(Slots(s));
    forall k | 0 <= k < |s.forwarded|
      ensures Account(s)[k] == Place.Event(s.forwarded[k])
    {
      assert Explains(Account(s)[k], s.forwarded[k]);
    }
  }

  lemma {:induction false} RequestsPass(s: State)
    requires Lossfree(s) && FailuresAreRequests(s) && RequestsAnswered(s)
    ensures forall k :: 0 <= k < |s.failed| ==> s.failed[k].code == REFRESH_UNSUPPORTED
    ensures forall i ::
      0 <= i < Handled(s) && s.pulled[i].ServerRequested? && !IsRefresh(s.pulled[i]) ==> Enqueued(s, i)
  {
    forall i | 0 <= i < Handled(s) && s.pulled[i].ServerRequested? && !IsRefresh(s.pulled[i])
      ensures Enqueued(s, i)
    {
      assert !Failed(s, i);
    }
  }

  // ----- after the receiver is gone

  /** Events that can still be handed to the forwarder once the receiver is gone. */
  function Attempts(s: State): nat {
    if s.pc.Idle? && s.polling then 1 else 0
  }

  /**
   From a closed receiver on nothing is enqueued, only token refreshes are failed, and at
   most one more event is handed on, which ends the polling.
   */
  lemma {:induction false} ClosedRun(s: State, run: seq<Action>)
    requires !s.open && Legal(s, run)
    ensures var t := After(s, run);
      && !t.open && Slots(t) == Slots(s) && s.failed <= t.failed
      && (forall k :: |s.failed| <= k < |t.failed| ==> t.failed[k].code == -32000)
      && s.forwarded <= t.forwarded && |t.forwarded| + Attempts(t) <= |s.forwarded| + Attempts(s)
      && (t.pc.Idle? && (!s.pc.Idle? || t.forwarded != s.forwarded) ==> !t.polling)
      && (!s.polling ==> !t.polling)
    decreases |run|
  {
    if run != [] {
      var s' := Next(s, run[0]);
      assert Slots(s') == Slots(s);
      ClosedRun(s', run[1..]);
    }
  }
}
