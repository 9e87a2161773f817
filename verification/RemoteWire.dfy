/**
 What the remote client makes of the wire, frame by frame: which frames reach the
 consumer and the callers, how the handshake and the connection end, and what commands
 write. The statements name the frames themselves.
 */
module RemoteWire {
  import opened Text
  import opened Protocol
  import opened RemoteWorker

  // ----- the consumer's stream, frame by frame

  /** A recognised notification or request, and the event that shows it. */
  predicate Shows(e: Entry, shown: Event) {
    match e
    case Received(Text(Notification(payload, true))) => shown == Notified(payload)
    case Received(Text(ServerRequest(id, m, true))) => shown == Asked(id, m)
    case _ => false
  }

  predicate IsForConsumer(e: Entry) {
    match e
    case Received(Text(Notification(_, recognised))) => recognised
    case Received(Text(ServerRequest(_, _, recognised))) => recognised
    case _ => false
  }

  /** The positions of the frames for the consumer, in order and none left out. */
  ghost predicate ListsFrames(at: seq<nat>, trace: seq<Entry>) {
    && (forall n :: 0 <= n < |at| ==> at[n] < |trace|)
    && (forall m, n :: 0 <= m < n < |at| ==> at[m] < at[n])
    && (forall p :: 0 <= p < |trace| ==> (p in at <==> IsForConsumer(trace[p])))
  }

  lemma {:induction false} ListsOneMore(at: seq<nat>, trace: seq<Entry>, e: Entry)
    requires ListsFrames(at, trace)
    ensures ListsFrames(if IsForConsumer(e) then at + [|trace|] else at, trace + [e])
  {
    forall p | 0 <= p < |trace + [e]|
      ensures p in (if IsForConsumer(e) then at + [|trace|] else at) <==> IsForConsumer((trace + [e])[p])
    {
      assert p < |trace| ==> (trace + [e])[p] == trace[p];
    }
  }

  lemma {:induction false} RecognisedFrames(trace: seq<Entry>) returns (at: seq<nat>)
    ensures ListsFrames(at, trace) && |at| == |Recognised(trace)|
    ensures forall n :: 0 <= n < |at| ==> Shows(trace[at[n]], Recognised(trace)[n])
    decreases |trace|
  {
    at := [];
    if trace != [] {
      var past, e := trace[..|trace| - 1], trace[|trace| - 1];
      assert trace == past + [e];
      var before := RecognisedFrames(past);
      ListsOneMore(before, past, e);
      RecognisedSnoc(past, e);
      at := if IsForConsumer(e) then before + [|past|] else before;
      assert forall n :: 0 <= n < |before| ==> trace[before[n]] == past[before[n]];
    }
  }

  /**
   In every run, unless the handshake was refused: the consumer is given the recognised
   notifications and requests, each with its own content, in wire order; a consumer that
   stays gets all of them, and then at most one farewell.
   */
  lemma {:induction false} StreamIsTheFrames(run: seq<Action>) returns (at: seq<nat>)
    requires Legal(BEGIN, run) && !After(BEGIN, run).phase.Refused?
    ensures var s := After(BEGIN, run);
      && ListsFrames(at, s.trace)
      && (forall n :: 0 <= n < |at| && n < |Stream(s)| ==> Shows(s.trace[at[n]], Stream(s)[n]))
      && |Stream(s)| <= |at| + (if s.exit.Some? then 1 else 0)
      && (s.consumerOpen ==> |Stream(s)| == |at| + if s.exit.Some? then 1 else 0)
      && (|Stream(s)| > |at| ==> s.exit.Some? && Stream(s)[|at|] == Gone(s.exit.value))
  {
    StreamIsExact(run);
    at := RecognisedFrames(After(BEGIN, run).trace);
  }

  // ----- answers, frame by frame

  /** The entry is the frame that answers `id`, with the reply it carries. */
  predicate Carries(e: Entry, id: RequestId, reply: Reply) {
    match e
    case Received(Text(Response(i, value))) => i == id && reply == Result(value)
    case Received(Text(ErrorResponse(i, error))) => i == id && reply == ServerError(error)
    case _ => false
  }

  /** The entry writes a request with this id, or is the answer to one. */
  predicate IsAbout(e: Entry, id: RequestId) {
    match e
    case WroteRequest(i, _) => i == id
    case Received(Text(Response(i, _))) => i == id
    case Received(Text(ErrorResponse(i, _))) => i == id
    case _ => false
  }

  lemma {:induction false} AboutIsConcerned(e: Entry, id: RequestId)
    ensures IsAbout(e, id) <==> Concerns(e, id)
  {
  }

  /**
   In every run, a result or an error a caller gets is what the frame received just before
   carries, and that frame answers the caller's own request: the latest write of its id.
   */
  lemma {:induction false} RepliesCarryTheirFrames(run: seq<Action>, p: nat) returns (w: nat, id: RequestId)
    requires Legal(BEGIN, run)
    requires var trace := After(BEGIN, run).trace;
      p < |trace| && trace[p].Replied? && (trace[p].reply.Result? || trace[p].reply.ServerError?)
    ensures var trace := After(BEGIN, run).trace;
      && w + 1 < p && Carries(trace[p - 1], id, trace[p].reply)
      && trace[w] == WroteRequest(id, Caller(trace[p].token))
      && forall q :: w < q < p - 1 ==> !IsAbout(trace[q], id)
  {
    w := RepliesReachTheirCallers(run, p);
    var trace := After(BEGIN, run).trace;
    id := AnswerOf(trace[p - 1].frame).value.0;
    forall q | w < q < p - 1 ensures !IsAbout(trace[q], id) { AboutIsConcerned(trace[q], id); }
  }

  /** An answer to a caller's open request is followed by that caller's reply. */
  ghost predicate PassesOn(trace: seq<Entry>, q: nat)
    requires q < |trace|
  {
    forall id, reply, k :: Carries(trace[q], id, reply) && OpenWriter(trace[..q], id) == Some(Caller(k)) ==>
      q + 1 < |trace| && trace[q + 1] == Replied(k, reply)
  }

  ghost predicate AllPassedOn(trace: seq<Entry>) {
    forall q :: 0 <= q < |trace| ==> PassesOn(trace, q)
  }

  lemma {:induction false} PassesOnLonger(trace: seq<Entry>, longer: seq<Entry>, q: nat)
    requires q < |trace| && trace <= longer && PassesOn(trace, q)
    ensures PassesOn(longer, q)
  {
    assert longer[..q] == trace[..q];
    assert q + 1 < |trace| ==> longer[q + 1] == trace[q + 1];
  }

  lemma {:induction false} AllPassedOnLonger(trace: seq<Entry>, longer: seq<Entry>)
    requires AllPassedOn(trace) && trace <= longer
    requires forall q :: |trace| <= q < |longer| ==> PassesOn(longer, q)
    ensures AllPassedOn(longer)
  {
    forall q | 0 <= q < |longer| ensures PassesOn(longer, q) {
      if q < |trace| {
        PassesOnLonger(trace, longer, q);
      }
    }
  }

  /** Entries that answer nothing pass on nothing. */
  lemma {:induction false} NothingToPass(trace: seq<Entry>, q: nat)
    requires q < |trace| && !(trace[q].Received? && AnswerOf(trace[q].frame).Some?)
    ensures PassesOn(trace, q)
  {
  }

  lemma {:induction false} CarriesIsAnswer(f: Frame, id: RequestId, reply: Reply)
    ensures Carries(Received(f), id, reply) <==> AnswerOf(f) == Some((id, reply))
  {
  }

  lemma {:induction false} FramePassedOn(s: State, f: Frame, io: Io)
    requires Routed(s) && Enabled(s, Receive(f, io))
    ensures var t := Next(s, Receive(f, io)).trace; |s.trace| < |t| && t[|s.trace|] == Received(f) && s.trace <= t
    ensures PassesOn(Next(s, Receive(f, io)).trace, |s.trace|)
  {
    var n, t := |s.trace|, Next(s, Receive(f, io)).trace;
    assert t[..n] == s.trace;
    forall id, reply, k | Carries(t[n], id, reply) && OpenWriter(t[..n], id) == Some(Caller(k))
      ensures n + 1 < |t| && t[n + 1] == Replied(k, reply)
    {
      CarriesIsAnswer(f, id, reply);
      assert OpenWriter(s.trace, id) == Expected(s, id);
    }
  }

  lemma {:induction false} AfterFrame(s: State, f: Frame, io: Io, q: nat)
    requires Enabled(s, Receive(f, io)) && |s.trace| < q < |Next(s, Receive(f, io)).trace|
    ensures !Next(s, Receive(f, io)).trace[q].Received?
  {
  }

  lemma {:induction false} OtherStepsHearNothing(s: State, a: Action, q: nat)
    requires Enabled(s, a) && !a.Receive? && |s.trace| <= q < |Next(s, a).trace|
    ensures !Next(s, a).trace[q].Received?
  {
  }

  lemma {:induction false} TraceGrows(s: State, a: Action)
    requires Enabled(s, a)
    ensures s.trace <= Next(s, a).trace
  {
  }

  lemma {:induction false} StepPassedOn(s: State, a: Action)
    requires Routed(s) && AllPassedOn(s.trace) && Enabled(s, a)
    ensures AllPassedOn(Next(s, a).trace)
  {
    var t := Next(s, a).trace;
    TraceGrows(s, a);
    forall q | |s.trace| <= q < |t| ensures PassesOn(t, q) {
      if !a.Receive? {
        OtherStepsHearNothing(s, a, q);
        NothingToPass(t, q);
      } else if q == |s.trace| {
        FramePassedOn(s, a.f, a.io);
      } else {
        AfterFrame(s, a.f, a.io, q);
        NothingToPass(t, q);
      }
    }
    AllPassedOnLonger(s.trace, t);
  }

  lemma {:induction false} RunPassedOn(s: State, run: seq<Action>)
    requires Routed(s) && AllPassedOn(s.trace) && Legal(s, run)
    ensures AllPassedOn(After(s, run).trace)
    decreases |run|
  {
    if run != [] {
      StepPassedOn(s, run[0]);
      StepRouted(s, run[0]);
      RunPassedOn(Next(s, run[0]), run[1..]);
    }
  }

  lemma {:induction false} StillOpen(trace: seq<Entry>, id: RequestId, writer: Writer, w: nat, q: nat)
    requires w < q <= |trace| && trace[w] == WroteRequest(id, writer)
    requires forall p :: w < p < q ==> !IsAbout(trace[p], id)
    ensures OpenWriter(trace[..q], id) == Some(writer)
    decreases q
  {
    assert trace[..q][..q - 1] == trace[..q - 1];
    if q - 1 > w {
      AboutIsConcerned(trace[q - 1], id);
      StillOpen(trace, id, writer, w, q - 1);
    }
  }

  /** In every run, the first answer to a caller's request is passed on to that caller at once. */
  lemma {:induction false} AnswersReachTheirCallers(
    run: seq<Action>, w: nat, q: nat, id: RequestId, k: nat, reply: Reply)
    requires Legal(BEGIN, run)
    requires var trace := After(BEGIN, run).trace;
      && w < q < |trace| && trace[w] == WroteRequest(id, Caller(k)) && Carries(trace[q], id, reply)
      && forall p :: w < p < q ==> !IsAbout(trace[p], id)
    ensures var trace := After(BEGIN, run).trace; q + 1 < |trace| && trace[q + 1] == Replied(k, reply)
  {
    BeginRouted();
    NothingToPass(BEGIN.trace, 0);
    RunPassedOn(BEGIN, run);
    var trace := After(BEGIN, run).trace;
    StillOpen(trace, id, Caller(k), w, q);
    assert PassesOn(trace, q);
  }

  // ----- how a connection ends

  /** The entry ends the connection with this message. */
  predicate Causes(e: Entry, m: Message) {
    match e
    case Received(BadText(error)) => m == InvalidJsonRpc(error)
    case Received(Close(reason)) => m == Disconnected(if reason == "" then "connection closed" else reason)
    case Received(TransportError(error)) => m == TransportFailure(error)
    case Received(EndOfStream) => m == StreamEnded
    case Received(Text(ServerRequest(_, _, recognised))) => !recognised && m.WriteFailure?
    case Replied(_, WriteFailed(error)) => m == WriteFailure(error)
    case _ => false
  }

  predicate EndsConnection(e: Entry) {
    e.Received? && (e.frame.BadText? || e.frame.Close? || e.frame.TransportError? || e.frame.EndOfStream?)
  }

  /** The entry at `p` caused the end; only callers still waiting were answered after it. */
  ghost predicate EndedBy(s: State, p: nat) {
    && p < |s.trace| && s.exit.Some? && Causes(s.trace[p], s.exit.value)
    && (forall q :: 0 <= q < p ==> !EndsConnection(s.trace[q]))
    && (forall q :: p < q < |s.trace| ==> s.trace[q].Replied? && s.trace[q].reply.Dropped?)
  }

  /** An exit message has its cause, and no frame that ends a connection goes unheeded. */
  ghost predicate Explained(s: State) {
    && (s.exit.Some? ==> s.phase.Exited? && exists p :: EndedBy(s, p))
    && (s.phase.Connecting? || s.phase.Running? || s.exit.None? ==>
          s.phase.Refused? || forall p :: 0 <= p < |s.trace| ==> !EndsConnection(s.trace[p]))
  }

  lemma {:induction false} FrameExplained(s: State, f: Frame, io: Io)
    requires Explained(s) && Enabled(s, Receive(f, io))
    ensures Explained(Next(s, Receive(f, io)))
  {
    var s' := Next(s, Receive(f, io));
    assert s'.trace[|s.trace|] == Received(f);
    if s'.exit.Some? {
      assert EndedBy(s', |s.trace|);
    }
  }

  lemma {:induction false} CommandExplained(s: State, c: Command, io: Io)
    requires Explained(s) && s.phase.Running?
    ensures Explained(Next(s, TakeCommand(c, io)))
  {
    var s' := Next(s, TakeCommand(c, io));
    if s'.exit.Some? {
      assert EndedBy(s', |s'.trace| - 1);
    }
  }

  lemma {:induction false} DrainExplained(s: State, id: RequestId)
    requires Explained(s) && Enabled(s, Drain(id))
    ensures Explained(Next(s, Drain(id)))
  {
    var s' := Next(s, Drain(id));
    if s.exit.Some? {
      var p :| EndedBy(s, p);
      assert EndedBy(s', p);
    }
  }

  lemma {:induction false} SameEndExplained(s: State, s': State)
    requires Explained(s) && s'.trace == s.trace && s'.exit == s.exit
    requires s'.phase == s.phase || (s.exit.None? && (s'.phase.Exited? || s'.phase.Refused?))
    requires s.phase.Refused? ==> s'.phase.Refused?
    ensures Explained(s')
  {
    if s.exit.Some? {
      var p :| EndedBy(s, p);
      assert EndedBy(s', p);
    }
  }

  lemma {:induction false} StepExplained(s: State, a: Action)
    requires Explained(s) && Enabled(s, a)
    ensures Explained(Next(s, a))
  {
    match a
    case TakeCommand(c, io) => CommandExplained(s, c, io);
    case Receive(f, io) => FrameExplained(s, f, io);
    case Drain(id) => DrainExplained(s, id);
    case _ => SameEndExplained(s, Next(s, a));
  }

  lemma {:induction false} RunExplained(s: State, run: seq<Action>)
    requires Explained(s) && Legal(s, run)
    ensures Explained(After(s, run))
    decreases |run|
  {
    if run != [] {
      StepExplained(s, run[0]);
      RunExplained(Next(s, run[0]), run[1..]);
    }
  }

  /**
   In every run, the message an ended client leaves is that of the frame or failed write
   which ended it, the last thing on the wire; and a frame that ends a connection ends it.
   */
  lemma {:induction false} EndIsExplained(run: seq<Action>)
    requires Legal(BEGIN, run)
    ensures var s := After(BEGIN, run);
      && (s.exit.Some? ==> s.phase.Exited? && exists p :: EndedBy(s, p))
      && forall p :: 0 <= p < |s.trace| && EndsConnection(s.trace[p]) ==> s.phase.Refused? || EndedBy(s, p)
  {
    RunExplained(BEGIN, run);
    var s := After(BEGIN, run);
    forall p | 0 <= p < |s.trace| && EndsConnection(s.trace[p]) && !s.phase.Refused?
      ensures EndedBy(s, p)
    {
      var e :| EndedBy(s, e);
      assert p == e;
    }
  }

  // ----- the handshake

  predicate AnswersInitialize(e: Entry) {
    IsAbout(e, StringId("initialize")) && e.Received?
  }

  /** The entry at `p` is the first answer to initialize; it is a result, and is acknowledged before any command. */
  ghost predicate ShookHandsAt(trace: seq<Entry>, p: nat) {
    && p + 1 < |trace| && AnswersInitialize(trace[p]) && trace[p].frame.message.Response?
    && trace[p + 1] == WroteInitialized
    && forall q :: 0 <= q < p ==> !AnswersInitialize(trace[q]) && !trace[q].Took?
  }

  ghost predicate Shaken(s: State) {
    && (s.phase.Connecting? ==> forall q :: 0 <= q < |s.trace| ==> !AnswersInitialize(s.trace[q]) && !s.trace[q].Took?)
    && (s.phase.Running? || s.phase.Exited? ==> exists p :: ShookHandsAt(s.trace, p))
  }

  lemma {:induction false} StillShaken(s: State, s': State)
    requires Shaken(s) && s.trace <= s'.trace && (s.phase.Running? || s.phase.Exited?) && !s'.phase.Connecting?
    ensures Shaken(s')
  {
    var p :| ShookHandsAt(s.trace, p);
    assert ShookHandsAt(s'.trace, p);
  }

  lemma {:induction false} HandshakeFrameShaken(s: State, f: Frame, io: Io)
    requires Shaken(s) && s.phase.Connecting?
    ensures Shaken(HandshakeFrame(s, f, io))
  {
    var s' := HandshakeFrame(s, f, io);
    if s'.phase.Running? {
      assert ShookHandsAt(s'.trace, |s.trace|);
    }
  }

  lemma {:induction false} StepShaken(s: State, a: Action)
    requires Shaken(s) && Enabled(s, a)
    ensures Shaken(Next(s, a))
  {
    if s.phase.Running? || s.phase.Exited? {
      TraceGrows(s, a);
      StillShaken(s, Next(s, a));
    } else if a.Receive? {
      HandshakeFrameShaken(s, a.f, a.io);
    }
  }

  lemma {:induction false} RunShaken(s: State, run: seq<Action>)
    requires Shaken(s) && Legal(s, run)
    ensures Shaken(After(s, run))
    decreases |run|
  {
    if run != [] {
      StepShaken(s, run[0]);
      RunShaken(Next(s, run[0]), run[1..]);
    }
  }

  /** In every run, a client that got through the handshake was let in by the first answer to initialize. */
  lemma {:induction false} HandshakeNeedsAResult(run: seq<Action>)
    requires Legal(BEGIN, run) && (After(BEGIN, run).phase.Running? || After(BEGIN, run).phase.Exited?)
    ensures exists p :: ShookHandsAt(After(BEGIN, run).trace, p)
  {
    RunShaken(BEGIN, run);
  }

  // ----- what commands write

  /** A command answered with success was written just before, under its own number; a request is still on the wire. */
  ghost predicate IsWritten(s: State, p: nat)
    requires p < |s.trace|
  {
    match s.trace[p]
    case Replied(k, Finished(IoOk)) =>
      k < |s.taken| && (s.taken[k].Shutdown? || (p > 0 && s.trace[p - 1] == WroteCommand(s.taken[k])))
    case WroteCommand(c) =>
      p > 0 && s.trace[p - 1].Took? && s.trace[p - 1].token < |s.taken| && s.taken[s.trace[p - 1].token] == c
    case WroteRequest(id, Caller(k)) => k < |s.taken| && s.taken[k] == Request(id)
    case _ => true
  }

  ghost predicate AllWritten(s: State) {
    forall p :: 0 <= p < |s.trace| ==> IsWritten(s, p)
  }

  lemma {:induction false} WrittenLonger(s: State, s': State, p: nat)
    requires p < |s.trace| && IsWritten(s, p) && s.trace <= s'.trace && s.taken <= s'.taken
    ensures IsWritten(s', p)
  {
  }

  lemma {:induction false} StepWrites(s: State, a: Action, p: nat)
    requires Enabled(s, a) && |s.trace| <= p < |Next(s, a).trace|
    ensures IsWritten(Next(s, a), p)
  {
    match a
    case TakeCommand(c, io) =>
      if c.Request? {
        RequestWrites(s, c.id, io, p);
      } else {
        OtherWrites(s, c, io, p);
      }
    case Receive(f, io) => FrameWrites(s, f, io, p);
    case _ =>
  }

  lemma {:induction false} RequestWrites(s: State, id: RequestId, io: Io, p: nat)
    requires |s.trace| <= p < |TakeRequest(s, id, io).trace|
    ensures IsWritten(TakeRequest(s, id, io), p)
  {
  }

  lemma {:induction false} OtherWrites(s: State, c: Command, io: Io, p: nat)
    requires |s.trace| <= p < |TakeOther(s, c, io).trace|
    ensures IsWritten(TakeOther(s, c, io), p)
  {
    var k := |s.taken|;
    var t := s.trace + [Took(k)];
    var u := if io.IoOk? && !c.Shutdown? then t + [WroteCommand(c)] else t;
    assert TakeOther(s, c, io).trace == u + [Replied(k, Finished(io))];
  }

  lemma {:induction false} FrameWrites(s: State, f: Frame, io: Io, p: nat)
    requires Enabled(s, Receive(f, io)) && |s.trace| <= p < |Next(s, Receive(f, io)).trace|
    ensures IsWritten(Next(s, Receive(f, io)), p)
  {
    var e := Next(s, Receive(f, io)).trace[p];
    assert e.Received? || e.WroteUnsupported? || e.WroteInitialized? || (e.Replied? && FromServer(e.reply));
  }

  lemma {:induction false} StepWritten(s: State, a: Action)
    requires AllWritten(s) && Enabled(s, a)
    ensures AllWritten(Next(s, a))
  {
    var s' := Next(s, a);
    TraceGrows(s, a);
    forall p | 0 <= p < |s'.trace| ensures IsWritten(s', p) {
      if p < |s.trace| {
        WrittenLonger(s, s', p);
      } else {
        StepWrites(s, a, p);
      }
    }
  }

  /** In every run, commands are written as they were given, and none is reported done without being written. */
  lemma {:induction false} CommandsAreWritten(run: seq<Action>)
    requires Legal(BEGIN, run)
    ensures AllWritten(After(BEGIN, run))
  {
    RunWritten(BEGIN, run);
  }

  lemma {:induction false} RunWritten(s: State, run: seq<Action>)
    requires AllWritten(s) && Legal(s, run)
    ensures AllWritten(After(s, run))
    decreases |run|
  {
    if run != [] {
      StepWritten(s, run[0]);
      RunWritten(Next(s, run[0]), run[1..]);
    }
  }

  // ----- what a command does when it is taken

  /** A request with this id was written and nothing that concerns the id came since. */
  ghost predicate IsUnanswered(trace: seq<Entry>, id: RequestId) {
    exists w :: 0 <= w < |trace| && trace[w].WroteRequest? && trace[w].id == id
             && forall q :: w < q < |trace| ==> !IsAbout(trace[q], id)
  }

  lemma {:induction false} UnansweredIsPending(s: State, id: RequestId)
    requires Routed(s) && s.phase.Running?
    ensures IsUnanswered(s.trace, id) <==> id in s.pending
  {
    assert s.trace[..|s.trace|] == s.trace;
    assert OpenWriter(s.trace, id) == Expected(s, id);
    if id in s.pending {
      var w := LatestWrite(s.trace, id, Caller(s.pending[id]));
      forall q | w < q < |s.trace| ensures !IsAbout(s.trace[q], id) { AboutIsConcerned(s.trace[q], id); }
    }
    if IsUnanswered(s.trace, id) {
      var w :| 0 <= w < |s.trace| && s.trace[w].WroteRequest? && s.trace[w].id == id
               && forall q :: w < q < |s.trace| ==> !IsAbout(s.trace[q], id);
      StillOpen(s.trace, id, s.trace[w].writer, w, |s.trace|);
    }
  }

  /**
   In every run, a request taken while the worker runs is a duplicate exactly when one with
   its id is still unanswered; otherwise it is written, or the write fails and ends the
   client. The trace tells what happened, and the caller waits only when it was written.
   */
  lemma {:induction false} RequestsAreTaken(run: seq<Action>, id: RequestId, io: Io)
    requires Legal(BEGIN, run) && After(BEGIN, run).phase.Running?
    ensures var s := After(BEGIN, run);
      var s' := Next(s, TakeCommand(Request(id), io));
      var k := |s.taken|;
      && s'.taken == s.taken + [Request(id)]
      && if IsUnanswered(s.trace, id) then
           s'.trace == s.trace + [Took(k), Replied(k, Duplicate)] && s'.phase.Running? && s'.exit == s.exit
         else if io.IoOk? then
           s'.trace == s.trace + [Took(k), WroteRequest(id, Caller(k))] && s'.phase.Running? && Waiting(s', k)
         else
           s'.trace == s.trace + [Took(k), Replied(k, WriteFailed(io.error))]
           && s'.phase.Exited? && s'.exit == Some(WriteFailure(io.error))
  {
    var s := After(BEGIN, run);
    BeginRouted();
    RunRouted(BEGIN, run);
    UnansweredIsPending(s, id);
    var k := |s.taken|;
    TwoEntries(s.trace, Took(k), Replied(k, Duplicate));
    TwoEntries(s.trace, Took(k), WroteRequest(id, Caller(k)));
    if id !in s.pending && io.IoOk? {
      assert Next(s, TakeCommand(Request(id), io)).pending[id] == k;
    }
    if io.IoErr? {
      TwoEntries(s.trace, Took(k), Replied(k, WriteFailed(io.error)));
    }
  }

  lemma {:induction false} TwoEntries(trace: seq<Entry>, a: Entry, b: Entry)
    ensures trace + [a] + [b] == trace + [a, b]
  {
  }

  /** In every run, any other command is answered at once with the outcome of its write; a shutdown ends the client. */
  lemma {:induction false} OthersAreTaken(run: seq<Action>, c: Command, io: Io)
    requires Legal(BEGIN, run) && After(BEGIN, run).phase.Running? && !c.Request?
    ensures var s := After(BEGIN, run);
      var s' := Next(s, TakeCommand(c, io));
      var k := |s.taken|;
      && s'.taken == s.taken + [c] && s'.pending == s.pending && s'.exit == s.exit
      && s'.trace[|s'.trace| - 1] == Replied(k, Finished(io))
      && (WroteCommand(c) in s'.trace[|s.trace|..] <==> io.IoOk? && !c.Shutdown?)
      && (s'.phase.Exited? <==> c.Shutdown?)
  {
    var s := After(BEGIN, run);
    var k := |s.taken|;
    var t := if io.IoOk? && !c.Shutdown? then [Took(k), WroteCommand(c)] else [Took(k)];
    assert Next(s, TakeCommand(c, io)).trace == s.trace + (t + [Replied(k, Finished(io))]);
  }
}
