/**
 The remote JSON-RPC client: initialize handshake, worker loop with a pending-request
 map, and every way it can end (`codex-rs/app-server-client/src/remote.rs`).
 */
module RemoteWorker {
  import opened Text
  import opened Protocol

  const INITIALIZE := StringId("initialize")

  /** What the server sends; whether a notification or request is recognised is decided by decoding. */
  datatype Incoming =
    | Response(id: RequestId, result: string)
    | ErrorResponse(id: RequestId, error: string)
    | Notification(payload: string, recognised: bool)
    | ServerRequest(id: RequestId, method_: string, recognised: bool)

  datatype Frame =
    | Text(message: Incoming)
    | BadText(error: string)
    | Ignorable
    | Close(reason: string)
    | TransportError(error: string)
    | EndOfStream

  datatype Command =
    | Request(id: RequestId)
    | Notify(payload: string)
    | Resolve(id: RequestId, result: string)
    | Reject(id: RequestId, error: string)
    | Shutdown

  datatype Io = IoOk | IoErr(error: string)

  /** Why the worker ended; `WorkerGone` when no error was recorded. */
  datatype Message =
    | WriteFailure(error: string)
    | InvalidJsonRpc(error: string)
    | Disconnected(reason: string)
    | TransportFailure(error: string)
    | StreamEnded
    | WorkerGone

  datatype Reply =
    | Result(value: string)
    | ServerError(error: string)
    | Duplicate
    | WriteFailed(error: string)
    | Finished(io: Io)
    | Dropped(message: Message)

  datatype Event = Notified(payload: string) | Asked(id: RequestId, method_: string) | Gone(message: Message)

  datatype Writer = Handshake | Caller(token: nat)

  /** The history of the connection. `Unsupported` is the error reply with code -32601. */
  datatype Entry =
    | Took(token: nat)
    | WroteRequest(id: RequestId, writer: Writer)
    | WroteUnsupported(id: RequestId)
    | WroteInitialized
    | WroteCommand(command: Command)
    | Received(frame: Frame)
    | Replied(token: nat, reply: Reply)

  datatype Phase = Connecting | Running | Exited | Refused

  /**
   The worker's variables, the two event queues with what the consumer has seen, the
   commands taken (a command's token is its number) and the history.
   */
  datatype State = State(
    phase: Phase, pending: map<RequestId, nat>, exit: Option<Message>,
    consumerOpen: bool, seen: seq<Event>, buffered: seq<Event>, channel: seq<Event>,
    taken: seq<Command>, trace: seq<Entry>)

  datatype Action =
    | TakeCommand(c: Command, io: Io)
    | CommandsClosed
    | Receive(f: Frame, io: Io)
    | HandshakeTimeout
    | Drain(id: RequestId)
    | NextEvent
    | DropConsumer

  const BEGIN := State(Connecting, map[], None, true, [], [], [], [], [WroteRequest(INITIALIZE, Handshake)])

  // ----- one step

  function Log(s: State, e: Entry): State {
    s.(trace := s.trace + [e])
  }

  /** `deliver_event` on the unbounded channel. */
  function Deliver(s: State, e: Event): State {
    if s.consumerOpen then s.(channel := s.channel + [e]) else s
  }

  /** Leaves the loop with an error: the consumer is told, and so will be the callers still waiting. */
  function Fail(s: State, m: Message): State {
    Deliver(s, Gone(m)).(phase := Exited, exit := Some(m))
  }

  function EventOf(f: Frame): Option<Event> {
    match f
    case Text(Notification(p, true)) => Some(Notified(p))
    case Text(ServerRequest(id, m, true)) => Some(Asked(id, m))
    case _ => None
  }

  /** The error message a frame that ends the connection leaves behind. */
  function Ending(f: Frame): Option<Message> {
    match f
    case BadText(e) => Some(InvalidJsonRpc(e))
    case Close(reason) => Some(Disconnected(if reason == "" then "connection closed" else reason))
    case TransportError(e) => Some(TransportFailure(e))
    case EndOfStream => Some(StreamEnded)
    case _ => None
  }

  /** The id a frame answers, and the answer. */
  function AnswerOf(f: Frame): Option<(RequestId, Reply)> {
    match f
    case Text(Response(id, v)) => Some((id, Result(v)))
    case Text(ErrorResponse(id, e)) => Some((id, ServerError(e)))
    case _ => None
  }

  predicate IsUnrecognisedRequest(f: Frame) {
    f.Text? && f.message.ServerRequest? && !f.message.recognised
  }

  function TakeRequest(s: State, id: RequestId, io: Io): State {
    var k := |s.taken|;
    var s1 := Log(s.(taken := s.taken + [Request(id)]), Took(k));
    if id in s.pending then Log(s1, Replied(k, Duplicate))
    else match io
      case IoOk => Log(s1.(pending := s.pending[id := k]), WroteRequest(id, Caller(k)))
      case IoErr(e) => Fail(Log(s1, Replied(k, WriteFailed(e))), WriteFailure(e))
  }

  function TakeOther(s: State, c: Command, io: Io): State {
    var k := |s.taken|;
    var s1 := Log(s.(taken := s.taken + [c]), Took(k));
    var s2 := if io.IoOk? && !c.Shutdown? then Log(s1, WroteCommand(c)) else s1;
    var s3 := Log(s2, Replied(k, Finished(io)));
    if c.Shutdown? then s3.(phase := Exited) else s3
  }

  /** The worker loop's reaction to a frame. */
  function WorkerFrame(s: State, f: Frame, io: Io): State {
    var s1 := Log(s, Received(f));
    if AnswerOf(f).Some? then
      var (id, reply) := AnswerOf(f).value;
      if id in s.pending then Log(s1.(pending := s.pending - {id}), Replied(s.pending[id], reply)) else s1
    else if EventOf(f).Some? then
      if s.consumerOpen then Deliver(s1, EventOf(f).value) else s1.(phase := Exited)
    else if IsUnrecognisedRequest(f) then
      (match io case IoOk => Log(s1, WroteUnsupported(f.message.id)) case IoErr(e) => Fail(s1, WriteFailure(e)))
    else if Ending(f).Some? then Fail(s1, Ending(f).value)
    else s1
  }

  /** The handshake's reaction: events are buffered, other answers ignored. */
  function HandshakeFrame(s: State, f: Frame, io: Io): State {
    var s1 := Log(s, Received(f));
    if AnswerOf(f).Some? then
      if AnswerOf(f).value.0 != INITIALIZE then s1
      else if AnswerOf(f).value.1.Result? && io.IoOk? then Log(s1, WroteInitialized).(phase := Running)
      else s1.(phase := Refused)
    else if EventOf(f).Some? then s1.(buffered := s1.buffered + [EventOf(f).value])
    else if IsUnrecognisedRequest(f) then
      if io.IoOk? then Log(s1, WroteUnsupported(f.message.id)) else s1.(phase := Refused)
    else if Ending(f).Some? then s1.(phase := Refused)
    else s1
  }

  predicate Enabled(s: State, a: Action) {
    match a
    case TakeCommand(_, _) => s.phase.Running?
    case CommandsClosed => s.phase.Running?
    case Receive(_, _) => s.phase.Running? || s.phase.Connecting?
    case HandshakeTimeout => s.phase.Connecting?
    case Drain(id) => s.phase.Exited? && id in s.pending
    case NextEvent => (s.phase.Running? || s.phase.Exited?) && s.consumerOpen && s.buffered + s.channel != []
    case DropConsumer => (s.phase.Running? || s.phase.Exited?) && s.consumerOpen
  }

  function ExitMessage(s: State): Message {
    match s.exit case Some(m) => m case None => WorkerGone
  }

  function Next(s: State, a: Action): State
    requires Enabled(s, a)
  {
    match a
    case TakeCommand(Request(id), io) => TakeRequest(s, id, io)
    case TakeCommand(c, io) => TakeOther(s, c, io)
    case CommandsClosed => s.(phase := Exited)
    case Receive(f, io) => if s.phase.Running? then WorkerFrame(s, f, io) else HandshakeFrame(s, f, io)
    case HandshakeTimeout => s.(phase := Refused)
    case Drain(id) => Log(s.(pending := s.pending - {id}), Replied(s.pending[id], Dropped(ExitMessage(s))))
    case NextEvent =>
      if s.buffered != [] then s.(seen := s.seen + [s.buffered[0]], buffered := s.buffered[1..])
      else s.(seen := s.seen + [s.channel[0]], channel := s.channel[1..])
    case DropConsumer => s.(consumerOpen := false)
  }

  predicate Legal(s: State, run: seq<Action>)
    decreases |run|
  {
    run == [] || (Enabled(s, run[0]) && Legal(Next(s, run[0]), run[1..]))
  }

  function After(s: State, run: seq<Action>): State
    requires Legal(s, run)
    decreases |run|
  {
    if run == [] then s else After(Next(s, run[0]), run[1..])
  }

  /** The client as its two halves keep it: the pending map, the exit error and the event queues. */
  class RemoteClient {
    var phase: Phase
    var pending: map<RequestId, nat>
    var exit: Option<Message>
    var consumerOpen: bool
    var seen: seq<Event>
    var buffered: seq<Event>
    var channel: seq<Event>
    var taken: seq<Command>
    ghost var trace: seq<Entry>

    ghost function View(): State
      reads this
    {
      State(phase, pending, exit, consumerOpen, seen, buffered, channel, taken, trace)
    }

    /** The handshake begins by writing the initialize request. */
    constructor ()
      ensures View() == BEGIN
    {
      phase, pending, exit, consumerOpen := Connecting, map[], None, true;
      seen, buffered, channel, taken := [], [], [], [];
      trace := [WroteRequest(INITIALIZE, Handshake)];
    }

    method FailWith(m: Message)
      modifies this
      ensures View() == Fail(old(View()), m)
    {
      if consumerOpen {
        channel := channel + [Gone(m)];
      }
      exit := Some(m);
      phase := Exited;
    }

    /** A command from the channel: requests wait in the map, the rest is answered at once. */
    method HandleCommand(c: Command, io: Io)
      requires phase.Running?
      modifies this
      ensures View() == Next(old(View()), TakeCommand(c, io))
    {
      var k := |taken|;
      taken := taken + [c];
      trace := trace + [Took(k)];
      if c.Request? {
        if c.id in pending {
          trace := trace + [Replied(k, Duplicate)];
          return;
        }
        if io.IoErr? {
          trace := trace + [Replied(k, WriteFailed(io.error))];
          FailWith(WriteFailure(io.error));
          return;
        }
        pending := pending[c.id := k];
        trace := trace + [WroteRequest(c.id, Caller(k))];
        return;
      }
      if io.IoOk? && !c.Shutdown? {
        trace := trace + [WroteCommand(c)];
      }
      trace := trace + [Replied(k, Finished(io))];
      if c.Shutdown? {
        phase := Exited;
      }
    }

    /** A frame from the socket while the worker loop runs. */
    method HandleFrame(f: Frame, io: Io)
      requires phase.Running?
      modifies this
      ensures View() == Next(old(View()), Receive(f, io))
    {
      trace := trace + [Received(f)];
      if AnswerOf(f).Some? {
        var (id, reply) := AnswerOf(f).value;
        if id in pending {
          trace := trace + [Replied(pending[id], reply)];
          pending := pending - {id};
        }
      } else if EventOf(f).Some? {
        if consumerOpen {
          channel := channel + [EventOf(f).value];
        } else {
          phase := Exited;
        }
      } else if IsUnrecognisedRequest(f) {
        if io.IoOk? {
          trace := trace + [WroteUnsupported(f.message.id)];
        } else {
          FailWith(WriteFailure(io.error));
        }
      } else if Ending(f).Some? {
        FailWith(Ending(f).value);
      }
    }

    /** A frame from the socket while `initialize_remote_connection` waits for its answer. */
    method HandleHandshakeFrame(f: Frame, io: Io)
      requires phase.Connecting?
      modifies this
      ensures View() == Next(old(View()), Receive(f, io))
    {
      trace := trace + [Received(f)];
      if AnswerOf(f).Some? {
        var (id, reply) := AnswerOf(f).value;
        if id == INITIALIZE {
          if reply.Result? && io.IoOk? {
            trace := trace + [WroteInitialized];
            phase := Running;
          } else {
            phase := Refused;
          }
        }
      } else if EventOf(f).Some? {
        buffered := buffered + [EventOf(f).value];
      } else if IsUnrecognisedRequest(f) && io.IoOk? {
        trace := trace + [WroteUnsupported(f.message.id)];
      } else if IsUnrecognisedRequest(f) || Ending(f).Some? {
        phase := Refused;
      }
    }

    /** After the loop: every caller still in the map is told why, in any order. */
    method DrainPending() returns (ghost run: seq<Action>)
      requires phase.Exited?
      modifies this
      ensures Legal(old(View()), run) && View() == After(old(View()), run)
      ensures pending == map[] && phase.Exited?
    {
      run := [];
      while pending != map[]
        invariant phase.Exited?
        invariant Legal(old(View()), run) && View() == After(old(View()), run)
        decreases |pending|
      {
        var id :| id in pending;
        ghost var before := View();
        trace := trace + [Replied(pending[id], Dropped(match exit { case Some(m) => m case None => WorkerGone }))];
        var rest := pending - {id};
        assert |rest.Keys| < |pending.Keys| by { assert pending.Keys == rest.Keys + {id}; }
        pending := rest;
        RunSnoc(old(View()), run, Drain(id));
        run := run + [Drain(id)];
      }
    }

    /** `next_event`: the handshake's buffer comes first. */
    method TakeEvent() returns (e: Event)
      requires Enabled(View(), NextEvent)
      modifies this
      ensures View() == Next(old(View()), NextEvent)
      ensures e == old(buffered + channel)[0]
    {
      if buffered != [] {
        e := buffered[0];
        buffered := buffered[1..];
      } else {
        e := channel[0];
        channel := channel[1..];
      }
      seen := seen + [e];
    }
  }

  lemma {:induction false} RunSnoc(s: State, run: seq<Action>, a: Action)
    requires Legal(s, run) && Enabled(After(s, run), a)
    ensures Legal(s, run + [a]) && After(s, run + [a]) == Next(After(s, run), a)
    decreases |run|
  {
    if run == [] {
      assert run + [a] == [a] && [a][1..] == [];
    } else {
      assert (run + [a])[1..] == run[1..] + [a];
      RunSnoc(Next(s, run[0]), run[1..], a);
    }
  }

  // ----- every command is answered once

  function Answers(trace: seq<Entry>, k: nat): nat {
    if trace == [] then 0
    else Answers(trace[..|trace| - 1], k)
         + match trace[|trace| - 1] { case Replied(t, _) => (if t == k then 1 else 0) case _ => 0 }
  }

  lemma {:induction false} AnswersSnoc(trace: seq<Entry>, e: Entry, k: nat)
    ensures Answers(trace + [e], k) ==
      Answers(trace, k) + match e { case Replied(t, _) => (if t == k then 1 else 0) case _ => 0 }
  {
    assert (trace + [e])[..|trace|] == trace;
  }

  ghost predicate Waiting(s: State, k: nat) {
    exists id :: id in s.pending && s.pending[id] == k
  }

  /** Tokens in the map are distinct, belong to requests with that id, and are exactly the unanswered ones. */
  ghost predicate OnceEach(s: State) {
    && (forall id :: id in s.pending ==> s.pending[id] < |s.taken| && s.taken[s.pending[id]] == Request(id))
    && (forall k: nat :: Answers(s.trace, k) == if k < |s.taken| && !Waiting(s, k) then 1 else 0)
  }

  /** Steps that neither take nor answer keep the balance. */
  lemma {:induction false} SameBalance(s: State, s': State)
    requires OnceEach(s) && s'.pending == s.pending && s'.taken == s.taken
    requires forall k: nat :: Answers(s'.trace, k) == Answers(s.trace, k)
    ensures OnceEach(s')
  {
    assert forall k: nat :: Waiting(s', k) <==> Waiting(s, k);
  }

  lemma {:induction false} LogBalance(s: State, e: Entry)
    requires OnceEach(s) && !e.Replied?
    ensures OnceEach(Log(s, e))
  {
    forall k: nat ensures Answers(Log(s, e).trace, k) == Answers(s.trace, k) { AnswersSnoc(s.trace, e, k); }
    SameBalance(s, Log(s, e));
  }

  /** A command is taken and answered at once. */
  lemma {:induction false} TakeAndReply(s: State, c: Command, reply: Reply)
    requires OnceEach(s)
    ensures OnceEach(Log(s.(taken := s.taken + [c]), Replied(|s.taken|, reply)))
  {
    var s' := Log(s.(taken := s.taken + [c]), Replied(|s.taken|, reply));
    forall k: nat
      ensures Answers(s'.trace, k) == if k < |s'.taken| && !Waiting(s', k) then 1 else 0
    {
      AnswersSnoc(s.trace, Replied(|s.taken|, reply), k);
      assert Waiting(s', k) <==> Waiting(s, k);
    }
  }

  /** A request is taken and waits in the map. */
  lemma {:induction false} TakeAndWait(s: State, id: RequestId)
    requires OnceEach(s) && id !in s.pending
    ensures OnceEach(s.(taken := s.taken + [Request(id)], pending := s.pending[id := |s.taken|]))
  {
    var s' := s.(taken := s.taken + [Request(id)], pending := s.pending[id := |s.taken|]);
    forall k: nat
      ensures Answers(s'.trace, k) == if k < |s'.taken| && !Waiting(s', k) then 1 else 0
    {
      if Waiting(s, k) {
        var i :| i in s.pending && s.pending[i] == k;
        assert s'.pending[i] == k;
      }
      if k == |s.taken| {
        assert s'.pending[id] == k;
      }
      if Waiting(s', k) && k < |s.taken| {
        var i :| i in s'.pending && s'.pending[i] == k;
        assert s.pending[i] == k;
      }
    }
  }

  /** A waiting request is answered and leaves the map. */
  lemma {:induction false} AnswerWaiting(s: State, id: RequestId, reply: Reply)
    requires OnceEach(s) && id in s.pending
    ensures OnceEach(Log(s.(pending := s.pending - {id}), Replied(s.pending[id], reply)))
  {
    var t := s.pending[id];
    var s' := Log(s.(pending := s.pending - {id}), Replied(t, reply));
    forall k: nat
      ensures Answers(s'.trace, k) == if k < |s'.taken| && !Waiting(s', k) then 1 else 0
    {
      AnswersSnoc(s.trace, Replied(t, reply), k);
      assert Waiting(s, t);
      if Waiting(s, k) && k != t {
        var i :| i in s.pending && s.pending[i] == k;
        assert s'.pending[i] == k;
      }
      if Waiting(s', k) {
        var i :| i in s'.pending && s'.pending[i] == k;
        assert s.pending[i] == k && s.taken[k] == Request(i);
      }
    }
  }

  lemma {:induction false} TakeRequestBalance(s: State, id: RequestId, io: Io)
    requires OnceEach(s)
    ensures OnceEach(TakeRequest(s, id, io))
  {
    var k := |s.taken|;
    LogBalance(s, Took(k));
    var s0 := Log(s, Took(k));
    if id in s.pending {
      TakeAndReply(s0, Request(id), Duplicate);
    } else {
      match io
      case IoOk =>
        TakeAndWait(s0, id);
        LogBalance(s0.(taken := s.taken + [Request(id)], pending := s.pending[id := k]), WroteRequest(id, Caller(k)));
      case IoErr(e) =>
        TakeAndReply(s0, Request(id), WriteFailed(e));
        SameBalance(Log(s0.(taken := s.taken + [Request(id)]), Replied(k, WriteFailed(e))), TakeRequest(s, id, io));
    }
  }

  lemma {:induction false} TakeOtherBalance(s: State, c: Command, io: Io)
    requires OnceEach(s)
    ensures OnceEach(TakeOther(s, c, io))
  {
    var k := |s.taken|;
    LogBalance(s, Took(k));
    var s0 := Log(s, Took(k));
    LogBalance(s0, WroteCommand(c));
    var s1 := if io.IoOk? && !c.Shutdown? then Log(s0, WroteCommand(c)) else s0;
    TakeAndReply(s1, c, Finished(io));
    SameBalance(Log(s1.(taken := s.taken + [c]), Replied(k, Finished(io))), TakeOther(s, c, io));
  }

  lemma {:induction false} FrameBalance(s: State, f: Frame, io: Io)
    requires OnceEach(s)
    ensures OnceEach(WorkerFrame(s, f, io))
  {
    var s1 := Log(s, Received(f));
    LogBalance(s, Received(f));
    if IsUnrecognisedRequest(f) {
      LogBalance(s1, WroteUnsupported(f.message.id));
    }
    if AnswerOf(f).Some? && AnswerOf(f).value.0 in s.pending {
      AnswerWaiting(s1, AnswerOf(f).value.0, AnswerOf(f).value.1);
    } else {
      var w := WorkerFrame(s, f, io);
      SameBalance(if |w.trace| == |s1.trace| then s1 else Log(s1, w.trace[|s1.trace|]), w);
    }
  }

  lemma {:induction false} HandshakeBalance(s: State, f: Frame, io: Io)
    requires OnceEach(s)
    ensures OnceEach(HandshakeFrame(s, f, io))
  {
    var s1 := Log(s, Received(f));
    LogBalance(s, Received(f));
    LogBalance(s1, WroteInitialized);
    if IsUnrecognisedRequest(f) {
      LogBalance(s1, WroteUnsupported(f.message.id));
    }
    var h := HandshakeFrame(s, f, io);
    SameBalance(if |h.trace| == |s1.trace| then s1 else Log(s1, h.trace[|s1.trace|]), h);
  }

  lemma {:induction false} StepBalance(s: State, a: Action)
    requires OnceEach(s) && Enabled(s, a)
    ensures OnceEach(Next(s, a))
  {
    match a
    case TakeCommand(c, io) =>
      if c.Request? {
        TakeRequestBalance(s, c.id, io);
      } else {
        TakeOtherBalance(s, c, io);
      }
    case Receive(f, io) =>
      FrameBalance(s, f, io);
      HandshakeBalance(s, f, io);
    case Drain(id) => AnswerWaiting(s, id, Dropped(ExitMessage(s)));
    case _ => SameBalance(s, Next(s, a));
  }

  lemma {:induction false} RunBalance(s: State, run: seq<Action>)
    requires OnceEach(s) && Legal(s, run)
    ensures OnceEach(After(s, run))
    decreases |run|
  {
    if run != [] {
      StepBalance(s, run[0]);
      RunBalance(Next(s, run[0]), run[1..]);
    }
  }

  /**
   In every run every command taken is answered at most once; once the worker has
   exited and drained its map, whatever the reason, exactly once.
   */
  lemma {:induction false} EveryCommandAnsweredOnce(run: seq<Action>, k: nat)
    requires Legal(BEGIN, run) && k < |After(BEGIN, run).taken|
    ensures var s := After(BEGIN, run);
      && Answers(s.trace, k) <= 1
      && (Answers(s.trace, k) == 0 <==> Waiting(s, k))
      && (s.pending == map[] ==> Answers(s.trace, k) == 1)
  {
    BeginBalance();
    RunBalance(BEGIN, run);
  }

  lemma {:induction false} BeginBalance()
    ensures OnceEach(BEGIN)
  {
    forall k: nat
      ensures Answers(BEGIN.trace, k) == 0
    {
      AnswersSnoc([], WroteRequest(INITIALIZE, Handshake), k);
      assert BEGIN.trace == [] + [WroteRequest(INITIALIZE, Handshake)];
    }
  }

  // ----- answers reach the latest writer

  predicate AnswersId(e: Entry, id: RequestId) {
    e.Received? && AnswerOf(e.frame).Some? && AnswerOf(e.frame).value.0 == id
  }

  /** Who wrote the latest request with `id`, while no answer to it has been received. */
  function OpenWriter(trace: seq<Entry>, id: RequestId): Option<Writer> {
    if trace == [] then None
    else
      var e := trace[|trace| - 1];
      if e.WroteRequest? && e.id == id then Some(e.writer)
      else if AnswersId(e, id) then None
      else OpenWriter(trace[..|trace| - 1], id)
  }

  predicate FromServer(reply: Reply) {
    reply.Result? || reply.ServerError?
  }

  /** An entry that respects routing: no second write while one is open; answers go to the open writer. */
  ghost predicate SafeEntry(before: seq<Entry>, e: Entry) {
    match e
    case WroteRequest(id, _) => OpenWriter(before, id).None?
    case Replied(k, reply) =>
      FromServer(reply) ==>
        && before != [] && before[|before| - 1].Received?
        && AnswerOf(before[|before| - 1].frame).Some?
        && AnswerOf(before[|before| - 1].frame).value.1 == reply
        && OpenWriter(before[..|before| - 1], AnswerOf(before[|before| - 1].frame).value.0) == Some(Caller(k))
    case _ => true
  }

  ghost predicate SafeTrace(trace: seq<Entry>) {
    forall p :: 0 <= p < |trace| ==> SafeEntry(trace[..p], trace[p])
  }

  lemma {:induction false} SafeSnoc(trace: seq<Entry>, e: Entry)
    requires SafeTrace(trace) && SafeEntry(trace, e)
    ensures SafeTrace(trace + [e])
  {
    forall p | 0 <= p < |trace + [e]|
      ensures SafeEntry((trace + [e])[..p], (trace + [e])[p])
    {
      assert (trace + [e])[..p] == if p < |trace| then trace[..p] else trace;
    }
  }

  lemma {:induction false} OpenSnoc(trace: seq<Entry>, e: Entry, id: RequestId)
    ensures OpenWriter(trace + [e], id) ==
      if e.WroteRequest? && e.id == id then Some(e.writer) else if AnswersId(e, id) then None else OpenWriter(trace, id)
  {
    assert (trace + [e])[..|trace|] == trace;
  }

  function Expected(s: State, id: RequestId): Option<Writer> {
    if s.phase.Connecting? then (if id == INITIALIZE then Some(Handshake) else None)
    else if id in s.pending then Some(Caller(s.pending[id])) else None
  }

  /** While the connection is up, the map is exactly the set of open writes. */
  ghost predicate Routed(s: State) {
    && SafeTrace(s.trace)
    && (s.phase.Connecting? ==> s.pending == map[])
    && (s.phase.Connecting? || s.phase.Running? ==> forall id :: OpenWriter(s.trace, id) == Expected(s, id))
  }

  /** An entry that opens and closes nothing. */
  predicate Inert(e: Entry) {
    && !e.WroteRequest?
    && !(e.Received? && AnswerOf(e.frame).Some?)
    && !(e.Replied? && FromServer(e.reply))
  }

  lemma {:induction false} InertRouted(s: State, e: Entry)
    requires Routed(s) && Inert(e)
    ensures Routed(Log(s, e))
  {
    SafeSnoc(s.trace, e);
    forall id ensures OpenWriter(s.trace + [e], id) == OpenWriter(s.trace, id) { OpenSnoc(s.trace, e, id); }
  }

  lemma {:induction false} WriteRouted(s: State, id: RequestId, k: nat)
    requires Routed(s) && s.phase.Running? && id !in s.pending
    ensures Routed(Log(s.(pending := s.pending[id := k]), WroteRequest(id, Caller(k))))
  {
    var e := WroteRequest(id, Caller(k));
    assert OpenWriter(s.trace, id) == Expected(s, id);
    SafeSnoc(s.trace, e);
    forall i { OpenSnoc(s.trace, e, i); }
  }

  lemma {:induction false} AnswerRouted(s: State, f: Frame, io: Io)
    requires Routed(s) && s.phase.Running? && AnswerOf(f).Some?
    ensures Routed(WorkerFrame(s, f, io))
  {
    var id, reply := AnswerOf(f).value.0, AnswerOf(f).value.1;
    var s1 := Log(s, Received(f));
    SafeSnoc(s.trace, Received(f));
    forall i { OpenSnoc(s.trace, Received(f), i); }
    assert OpenWriter(s.trace, id) == Expected(s, id);
    if id in s.pending {
      var e := Replied(s.pending[id], reply);
      assert s1.trace[..|s1.trace| - 1] == s.trace;
      SafeSnoc(s1.trace, e);
      forall i { OpenSnoc(s1.trace, e, i); }
    }
  }

  lemma {:induction false} HandshakeAnswerRouted(s: State, f: Frame, io: Io)
    requires Routed(s) && s.phase.Connecting? && AnswerOf(f).Some?
    ensures Routed(HandshakeFrame(s, f, io))
  {
    var s1 := Log(s, Received(f));
    SafeSnoc(s.trace, Received(f));
    forall i { OpenSnoc(s.trace, Received(f), i); }
    assert forall i :: OpenWriter(s.trace, i) == Expected(s, i);
    SafeSnoc(s1.trace, WroteInitialized);
    forall i { OpenSnoc(s1.trace, WroteInitialized, i); }
  }

  lemma {:induction false} OtherFrameRouted(s: State, f: Frame, io: Io)
    requires Routed(s) && Enabled(s, Receive(f, io)) && AnswerOf(f).None?
    ensures Routed(Next(s, Receive(f, io)))
  {
    InertRouted(s, Received(f));
    if IsUnrecognisedRequest(f) {
      InertRouted(Log(s, Received(f)), WroteUnsupported(f.message.id));
    }
  }

  lemma {:induction false} CommandRouted(s: State, c: Command, io: Io)
    requires Routed(s) && s.phase.Running?
    ensures Routed(Next(s, TakeCommand(c, io)))
  {
    var k := |s.taken|;
    InertRouted(s, Took(k));
    var s0 := Log(s, Took(k));
    InertRouted(s0, WroteCommand(c));
    InertRouted(s0, Replied(k, Finished(io)));
    InertRouted(Log(s0, WroteCommand(c)), Replied(k, Finished(io)));
    if c.Request? {
      if c.id in s.pending {
        InertRouted(s0, Replied(k, Duplicate));
      } else {
        WriteRouted(s0, c.id, k);
        InertRouted(s0, Replied(k, WriteFailed(if io.IoErr? then io.error else "")));
      }
    }
  }

  lemma {:induction false} StepRouted(s: State, a: Action)
    requires Routed(s) && Enabled(s, a)
    ensures Routed(Next(s, a))
  {
    match a
    case TakeCommand(c, io) => CommandRouted(s, c, io);
    case Receive(f, io) =>
      if AnswerOf(f).None? {
        OtherFrameRouted(s, f, io);
      } else if s.phase.Running? {
        AnswerRouted(s, f, io);
      } else {
        HandshakeAnswerRouted(s, f, io);
      }
    case Drain(id) => SafeSnoc(s.trace, Replied(s.pending[id], Dropped(ExitMessage(s))));
    case _ =>
  }

  lemma {:induction false} RunRouted(s: State, run: seq<Action>)
    requires Routed(s) && Legal(s, run)
    ensures Routed(After(s, run))
    decreases |run|
  {
    if run != [] {
      StepRouted(s, run[0]);
      RunRouted(Next(s, run[0]), run[1..]);
    }
  }

  lemma {:induction false} BeginRouted()
    ensures Routed(BEGIN)
  {
    var e := WroteRequest(INITIALIZE, Handshake);
    assert BEGIN.trace == [] + [e];
    SafeSnoc([], e);
    forall id { OpenSnoc([], e, id); }
  }

  lemma {:induction false} AnswerSince(trace: seq<Entry>, id: RequestId, p: nat, q: nat) returns (r: nat)
    requires p < q <= |trace| && trace[p].WroteRequest? && trace[p].id == id && OpenWriter(trace[..q], id).None?
    ensures p < r < q && AnswersId(trace[r], id)
    decreases q
  {
    assert trace[..q][..q - 1] == trace[..q - 1];
    if AnswersId(trace[q - 1], id) {
      r := q - 1;
    } else {
      r := AnswerSince(trace, id, p, q - 1);
    }
  }

  predicate Concerns(e: Entry, id: RequestId) {
    AnswersId(e, id) || (e.WroteRequest? && e.id == id)
  }

  lemma {:induction false} LatestWrite(trace: seq<Entry>, id: RequestId, w: Writer) returns (p: nat)
    requires OpenWriter(trace, id) == Some(w)
    ensures p < |trace| && trace[p] == WroteRequest(id, w)
    ensures forall q :: p < q < |trace| ==> !Concerns(trace[q], id)
  {
    var n := |trace| - 1;
    if trace[n].WroteRequest? && trace[n].id == id {
      p := n;
    } else {
      p := LatestWrite(trace[..n], id, w);
    }
  }

  lemma {:induction false} EntryIsSafe(run: seq<Action>, p: nat)
    requires Legal(BEGIN, run) && p < |After(BEGIN, run).trace|
    ensures SafeEntry(After(BEGIN, run).trace[..p], After(BEGIN, run).trace[p])
  {
    BeginRouted();
    RunRouted(BEGIN, run);
  }

  /** In every run, between two writes of one id an answer to that id was received. */
  lemma {:induction false} AnswerBetweenWrites(run: seq<Action>, p: nat, q: nat) returns (r: nat)
    requires Legal(BEGIN, run)
    requires var trace := After(BEGIN, run).trace;
      p < q < |trace| && trace[p].WroteRequest? && trace[q].WroteRequest? && trace[p].id == trace[q].id
    ensures p < r < q && AnswersId(After(BEGIN, run).trace[r], After(BEGIN, run).trace[p].id)
  {
    EntryIsSafe(run, q);
    var trace := After(BEGIN, run).trace;
    r := AnswerSince(trace, trace[p].id, p, q);
  }

  /** The entry at `p` passes on the answer received just before, to the caller of the write at `w`. */
  ghost predicate Answered(trace: seq<Entry>, w: nat, p: nat)
    requires w + 1 < p < |trace| && trace[p].Replied? && trace[p - 1].Received? && AnswerOf(trace[p - 1].frame).Some?
  {
    var (id, reply) := AnswerOf(trace[p - 1].frame).value;
    && trace[p].reply == reply
    && trace[w] == WroteRequest(id, Caller(trace[p].token))
    && forall q :: w < q < p - 1 ==> !Concerns(trace[q], id)
  }

  /**
   In every run: a result or server error is the content of the answer frame received
   just before, and goes to the caller whose request was the latest written with that
   id, with no other write and no answer of that id in between.
   */
  lemma {:induction false} RepliesReachTheirCallers(run: seq<Action>, p: nat) returns (w: nat)
    requires Legal(BEGIN, run)
    requires var trace := After(BEGIN, run).trace; p < |trace| && trace[p].Replied? && FromServer(trace[p].reply)
    ensures var trace := After(BEGIN, run).trace;
      w + 1 < p && trace[p - 1].Received? && AnswerOf(trace[p - 1].frame).Some? && Answered(trace, w, p)
  {
    EntryIsSafe(run, p);
    var trace := After(BEGIN, run).trace;
    assert p > 0 ==> trace[..p][..p - 1] == trace[..p - 1] && trace[..p][p - 1] == trace[p - 1];
    w := LatestWrite(trace[..p - 1], AnswerOf(trace[p - 1].frame).value.0, Caller(trace[p].token));
  }

  // ----- the consumer's stream

  /** The events of the frames received, in wire order. */
  function Recognised(trace: seq<Entry>): seq<Event> {
    if trace == [] then []
    else
      Recognised(trace[..|trace| - 1])
      + match trace[|trace| - 1] {
          case Received(f) => (match EventOf(f) case Some(e) => [e] case None => [])
          case _ => []
        }
  }

  /** Everything the consumer has been or will be given. */
  function Stream(s: State): seq<Event> {
    s.seen + s.buffered + s.channel
  }

  function Farewell(s: State): seq<Event> {
    match s.exit case Some(m) => [Gone(m)] case None => []
  }

  ghost predicate Streamed(s: State) {
    && (s.phase.Connecting? ==> s.consumerOpen && s.channel == [] && s.seen == [])
    && (s.exit.Some? ==> s.phase.Exited?)
    && (s.consumerOpen && !s.phase.Refused? ==> Stream(s) == Recognised(s.trace) + Farewell(s))
    && (!s.phase.Refused? ==> Stream(s) <= Recognised(s.trace) + Farewell(s))
  }

  lemma {:induction false} RecognisedSnoc(trace: seq<Entry>, e: Entry)
    ensures Recognised(trace + [e]) == Recognised(trace)
      + match e { case Received(f) => (match EventOf(f) case Some(v) => [v] case None => []) case _ => [] }
  {
    assert (trace + [e])[..|trace|] == trace;
  }

  lemma {:induction false} LogStreamed(s: State, e: Entry)
    requires Streamed(s) && (e.Received? ==> EventOf(e.frame).None?)
    ensures Streamed(Log(s, e))
  {
    RecognisedSnoc(s.trace, e);
    assert Recognised(s.trace) + [] == Recognised(s.trace);
  }

  lemma {:induction false} FailStreamed(s: State, m: Message)
    requires Streamed(s) && s.phase.Running?
    ensures Streamed(Fail(s, m))
  {
    var s' := Fail(s, m);
    assert Recognised(s.trace) + [] == Recognised(s.trace);
    assert s.consumerOpen ==> Stream(s') == Stream(s) + [Gone(m)];
    assert !s.consumerOpen ==> Stream(s') == Stream(s);
  }

  /** Consumer moves and changes of the map do not touch the stream. */
  lemma {:induction false} SameStream(s: State, s': State)
    requires Streamed(s) && s'.trace == s.trace && s'.exit == s.exit && Stream(s') == Stream(s)
    requires s'.consumerOpen ==> s.consumerOpen
    requires !s'.phase.Connecting? && (s.exit.Some? ==> s'.phase.Exited?) && (!s'.phase.Refused? ==> !s.phase.Refused?)
    ensures Streamed(s')
  {
  }

  lemma {:induction false} CommandStreamed(s: State, c: Command, io: Io)
    requires Streamed(s) && s.phase.Running?
    ensures Streamed(Next(s, TakeCommand(c, io)))
  {
    var k := |s.taken|;
    var s0 := s.(taken := s.taken + [c]);
    LogStreamed(s0, Took(k));
    var s1 := Log(s0, Took(k));
    LogStreamed(s1, Replied(k, Finished(io)));
    LogStreamed(s1, WroteCommand(c));
    LogStreamed(Log(s1, WroteCommand(c)), Replied(k, Finished(io)));
    if c.Request? {
      LogStreamed(s1, Replied(k, Duplicate));
      LogStreamed(s1.(pending := s.pending[c.id := k]), WroteRequest(c.id, Caller(k)));
      if io.IoErr? {
        LogStreamed(s1, Replied(k, WriteFailed(io.error)));
        FailStreamed(Log(s1, Replied(k, WriteFailed(io.error))), WriteFailure(io.error));
      }
    }
  }

  /** A recognised frame adds its event to the stream, or finds the consumer gone. */
  lemma {:induction false} StreamGrows(s: State, s': State, f: Frame, e: Event)
    requires Streamed(s) && s.exit.None? && s'.exit.None? && !s.phase.Refused? && EventOf(f) == Some(e)
    requires s'.trace == s.trace + [Received(f)] && s'.consumerOpen == s.consumerOpen
    requires Stream(s') == if s.consumerOpen then Stream(s) + [e] else Stream(s)
    requires s'.phase.Connecting? ==> s'.consumerOpen && s'.channel == [] && s'.seen == []
    ensures Streamed(s')
  {
    RecognisedSnoc(s.trace, Received(f));
    assert Recognised(s.trace) + [] == Recognised(s.trace);
    assert Recognised(s'.trace) + [] == Recognised(s'.trace);
  }

  lemma {:induction false} EventStreamed(s: State, f: Frame, io: Io)
    requires Streamed(s) && Enabled(s, Receive(f, io)) && EventOf(f).Some?
    ensures Streamed(Next(s, Receive(f, io)))
  {
    var s' := Next(s, Receive(f, io));
    var e := EventOf(f).value;
    if s.phase.Connecting? {
      assert s'.buffered == s.buffered + [e];
    } else if s.consumerOpen {
      assert s'.channel == s.channel + [e];
    }
    StreamGrows(s, s', f, e);
  }

  lemma {:induction false} OtherFrameStreamed(s: State, f: Frame, io: Io)
    requires Streamed(s) && Enabled(s, Receive(f, io)) && EventOf(f).None?
    ensures Streamed(Next(s, Receive(f, io)))
  {
    var s1 := Log(s, Received(f));
    LogStreamed(s, Received(f));
    LogStreamed(s1, WroteInitialized);
    if AnswerOf(f).Some? && AnswerOf(f).value.0 in s.pending {
      var id := AnswerOf(f).value.0;
      LogStreamed(s1.(pending := s.pending - {id}), Replied(s.pending[id], AnswerOf(f).value.1));
    }
    if IsUnrecognisedRequest(f) {
      LogStreamed(s1, WroteUnsupported(f.message.id));
    }
    if s.phase.Running? {
      if Ending(f).Some? {
        FailStreamed(s1, Ending(f).value);
      }
      if io.IoErr? {
        FailStreamed(s1, WriteFailure(io.error));
      }
    }
  }

  lemma {:induction false} StepStreamed(s: State, a: Action)
    requires Streamed(s) && Enabled(s, a)
    ensures Streamed(Next(s, a))
  {
    match a
    case TakeCommand(c, io) => CommandStreamed(s, c, io);
    case Receive(f, io) =>
      if EventOf(f).Some? {
        EventStreamed(s, f, io);
      } else {
        OtherFrameStreamed(s, f, io);
      }
    case Drain(id) => LogStreamed(s.(pending := s.pending - {id}), Replied(s.pending[id], Dropped(ExitMessage(s))));
    case _ => SameStream(s, Next(s, a));
  }

  lemma {:induction false} RunStreamed(s: State, run: seq<Action>)
    requires Streamed(s) && Legal(s, run)
    ensures Streamed(After(s, run))
    decreases |run|
  {
    if run != [] {
      StepStreamed(s, run[0]);
      RunStreamed(Next(s, run[0]), run[1..]);
    }
  }

  /** Callers still waiting when the worker exits get the message the consumer got. */
  ghost predicate SameMessage(s: State) {
    forall p :: 0 <= p < |s.trace| && s.trace[p].Replied? && s.trace[p].reply.Dropped? ==>
      s.phase.Exited? && s.trace[p].reply.message == ExitMessage(s)
  }

  lemma {:induction false} StepSameMessage(s: State, a: Action)
    requires SameMessage(s) && Enabled(s, a)
    ensures SameMessage(Next(s, a))
  {
    var s' := Next(s, a);
    if s.phase.Exited? {
      assert s'.phase.Exited? && s'.exit == s.exit;
    } else {
      NoDropBeforeExit(s, a);
    }
  }

  /** `after` continues `before` without an answer of the exit loop. */
  ghost predicate WithoutDrops(before: seq<Entry>, after: seq<Entry>) {
    before <= after && forall p :: |before| <= p < |after| && after[p].Replied? ==> !after[p].reply.Dropped?
  }

  lemma {:induction false} CommandDropsNothing(s: State, c: Command, io: Io)
    ensures c.Request? ==> WithoutDrops(s.trace, TakeRequest(s, c.id, io).trace)
    ensures WithoutDrops(s.trace, TakeOther(s, c, io).trace)
  {
  }

  lemma {:induction false} WorkerFrameDropsNothing(s: State, f: Frame, io: Io)
    ensures WithoutDrops(s.trace, WorkerFrame(s, f, io).trace)
  {
  }

  lemma {:induction false} HandshakeFrameDropsNothing(s: State, f: Frame, io: Io)
    ensures WithoutDrops(s.trace, HandshakeFrame(s, f, io).trace)
  {
  }

  lemma {:induction false} NoDropBeforeExit(s: State, a: Action)
    requires Enabled(s, a) && !s.phase.Exited?
    ensures WithoutDrops(s.trace, Next(s, a).trace)
  {
    match a
    case TakeCommand(c, io) => CommandDropsNothing(s, c, io);
    case Receive(f, io) =>
      WorkerFrameDropsNothing(s, f, io);
      HandshakeFrameDropsNothing(s, f, io);
    case _ =>
  }

  lemma {:induction false} RunSameMessage(s: State, run: seq<Action>)
    requires SameMessage(s) && Legal(s, run)
    ensures SameMessage(After(s, run))
    decreases |run|
  {
    if run != [] {
      StepSameMessage(s, run[0]);
      RunSameMessage(Next(s, run[0]), run[1..]);
    }
  }

  /**
   In every run with an open consumer, the consumer's stream is the recognised
   notifications and requests in wire order, from the handshake on, then at most one
   disconnect, which is last; callers still waiting then get the same message.
   A consumer that goes away has been given a prefix of that.
   */
  lemma {:induction false} StreamIsExact(run: seq<Action>)
    requires Legal(BEGIN, run)
    ensures var s := After(BEGIN, run);
      !s.phase.Refused? ==>
        && Stream(s) <= Recognised(s.trace) + Farewell(s)
        && (s.consumerOpen ==> Stream(s) == Recognised(s.trace) + Farewell(s))
        && SameMessage(s)
  {
    var e := WroteRequest(INITIALIZE, Handshake);
    RecognisedSnoc([], e);
    assert BEGIN.trace == [] + [e];
    assert Streamed(BEGIN);
    RunStreamed(BEGIN, run);
    RunSameMessage(BEGIN, run);
  }

  // ----- unrecognised server requests

  /** An unrecognised request is answered next, or its answer could not be written and the connection ended. */
  ghost predicate Rejects(s: State, p: nat)
    requires p < |s.trace| && s.trace[p].Received? && IsUnrecognisedRequest(s.trace[p].frame)
  {
    || (p + 1 < |s.trace| && s.trace[p + 1] == WroteUnsupported(s.trace[p].frame.message.id))
    || (s.phase.Refused? && p + 1 == |s.trace|)
    || (s.phase.Exited? && s.exit.Some? && s.exit.value.WriteFailure?
        && forall q :: p < q < |s.trace| ==> s.trace[q].Replied?)
  }

  ghost predicate AllRejected(s: State) {
    forall p :: 0 <= p < |s.trace| && s.trace[p].Received? && IsUnrecognisedRequest(s.trace[p].frame) ==> Rejects(s, p)
  }

  lemma {:induction false} ExtendRejected(s: State, s': State)
    requires AllRejected(s) && s.trace <= s'.trace && !s.phase.Refused?
    requires s.phase.Exited? ==>
      s'.phase.Exited? && s'.exit == s.exit && forall q :: |s.trace| <= q < |s'.trace| ==> s'.trace[q].Replied?
    requires forall q :: |s.trace| <= q < |s'.trace| && s'.trace[q].Received? ==>
      IsUnrecognisedRequest(s'.trace[q].frame) ==> Rejects(s', q)
    ensures AllRejected(s')
  {
    forall p | 0 <= p < |s'.trace| && s'.trace[p].Received? && IsUnrecognisedRequest(s'.trace[p].frame)
      ensures Rejects(s', p)
    {
      if p < |s.trace| {
        assert s.trace[p] == s'.trace[p];
        assert Rejects(s, p);
        assert p + 1 < |s.trace| ==> s.trace[p + 1] == s'.trace[p + 1];
        if s.phase.Exited? {
          assert forall q :: p < q < |s.trace| ==> s.trace[q] == s'.trace[q];
        }
      }
    }
  }

  lemma {:induction false} FrameRejected(s: State, f: Frame, io: Io)
    requires AllRejected(s) && Enabled(s, Receive(f, io))
    ensures AllRejected(Next(s, Receive(f, io)))
  {
    var s' := Next(s, Receive(f, io));
    var n := |s.trace|;
    assert s'.trace[n] == Received(f);
    if IsUnrecognisedRequest(f) {
      assert EventOf(f).None? && AnswerOf(f).None?;
      if io.IoOk? {
        assert s'.trace == s.trace + [Received(f)] + [WroteUnsupported(f.message.id)];
      } else {
        assert s'.trace == s.trace + [Received(f)];
      }
      assert Rejects(s', n);
    }
    ExtendRejected(s, s');
  }

  lemma {:induction false} StepRejected(s: State, a: Action)
    requires AllRejected(s) && Enabled(s, a)
    ensures AllRejected(Next(s, a))
  {
    match a
    case Receive(f, io) => FrameRejected(s, f, io);
    case _ => ExtendRejected(s, Next(s, a));
  }

  lemma {:induction false} RunRejected(s: State, run: seq<Action>)
    requires AllRejected(s) && Legal(s, run)
    ensures AllRejected(After(s, run))
    decreases |run|
  {
    if run != [] {
      StepRejected(s, run[0]);
      RunRejected(Next(s, run[0]), run[1..]);
    }
  }

  /**
   In every run, an unrecognised server request is answered next, with -32601 and its own
   id; or that write failed, which ended the connection with nothing after it but the
   answers to callers still waiting.
   */
  lemma {:induction false} UnrecognisedRequestsAreRejected(run: seq<Action>, p: nat, id: RequestId, m: string)
    requires Legal(BEGIN, run)
    requires var trace := After(BEGIN, run).trace;
      p < |trace| && trace[p] == Received(Text(ServerRequest(id, m, false)))
    ensures var s := After(BEGIN, run);
      || (p + 1 < |s.trace| && s.trace[p + 1] == WroteUnsupported(id))
      || (s.phase.Refused? && p + 1 == |s.trace|)
      || (s.phase.Exited? && s.exit.Some? && s.exit.value.WriteFailure?
          && forall q :: p < q < |s.trace| ==> s.trace[q].Replied?)
  {
    RunRejected(BEGIN, run);
    assert Rejects(After(BEGIN, run), p);
  }
}
