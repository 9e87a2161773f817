/**
 The analytics reducer: five maps updated by a stream of facts, and the events it
 emits (`codex-rs/analytics/src/reducer.rs`). Event payloads keep the state they are built from.
 */
module Reducer {
  import opened Text
  import opened Protocol
  import DiffParser
  import Chunking

  // ----- state

  datatype Mode = New | Forked | Resumed

  /** Client and runtime metadata of a connection, as one value. */
  datatype Connection = Connection(info: string)

  datatype ThreadMeta = ThreadMeta(source: Option<string>, mode: Mode, subagent: Option<string>, parent: Option<string>)

  datatype Thread = Thread(connection: Option<nat>, meta: Option<ThreadMeta>)

  datatype Pending =
    | TurnStart(threadId: string, images: nat)
    | TurnSteer(threadId: string, expectedTurn: string, images: nat, createdAt: nat)

  datatype Config = Config(turnId: string, threadId: string, images: nat, model: string, settings: string)

  datatype Completed = Completed(
    status: Option<string>, error: Option<string>, completedAt: nat, durationMs: Option<nat>)

  datatype Turn = Turn(
    connection: Option<nat>, threadId: Option<string>, images: Option<nat>, config: Option<Config>,
    startedAt: Option<nat>, usage: Option<string>, completed: Option<Completed>, diff: Option<string>, steers: nat)

  const NEW_TURN := Turn(None, None, None, None, None, None, None, None, 0)

  datatype ItemKey = ItemKey(threadId: string, turnId: string, itemId: string)

  datatype Key = Key(connection: nat, request: RequestId)

  datatype TurnParams = TurnParams(
    turnId: string, threadId: string, client: Connection, meta: ThreadMeta, config: Config, images: nat,
    completed: Completed, steers: nat, usage: Option<string>, startedAt: Option<nat>)

  /**
   `AcceptedLines` stands for the events the chunker makes of one summary. A thread started
   by a subagent brings its own client description, so its event names no connection.
   */
  datatype Out =
    | TurnEvent(params: TurnParams)
    | AcceptedLines(turnId: string, threadId: string, model: string, added: nat, deleted: nat, prints: Chunking.Chunk)
    | SteerEvent(pending: Pending, accepted: bool, acceptedTurn: Option<string>, rejection: Option<string>,
                 client: Connection, meta: ThreadMeta)
    | ThreadInitialized(threadId: string, through: Option<Connection>, meta: ThreadMeta)
    | ToolItem(key: ItemKey, startedAt: nat, completedAt: nat, client: Connection, meta: ThreadMeta)
    | Compacted(threadId: string, client: Connection, meta: ThreadMeta)
    | Reviewed(threadId: string, client: Connection)
    | Other(name: string)

  datatype State = State(
    requests: map<Key, Pending>, turns: map<string, Turn>, connections: map<nat, Connection>,
    threads: map<string, Thread>, items: map<ItemKey, nat>, out: seq<Out>)

  const EMPTY := State(map[], map[], map[], map[], map[], [])

  datatype Fact =
    | Initialize(connection: nat, client: Connection)
    | Requested(key: Key, pending: Pending)
    | ThreadResponse(connection: nat, threadId: string, meta: ThreadMeta)
    | StartResponse(key: Key, turnId: string)
    | SteerResponse(key: Key, turnId: string)
    | ErrorResponse(key: Key, rejection: Option<string>)
    | ItemStarted(item: ItemKey, at: Option<nat>)
    | ItemCompleted(item: ItemKey, at: Option<nat>, terminal: bool)
    | TurnStarted(turnId: string, startedAt: Option<nat>)
    | DiffUpdated(turnId: string, threadId: string, diff: string)
    | TurnCompleted(turnId: string, completed: Completed)
    | SubAgentStarted(threadId: string, parent: Option<string>, source: string)
    | ResolvedConfig(config: Config)
    | TokenUsage(turnId: string, threadId: string, usage: string)
    | Compaction(threadId: string)
    | GuardianReview(threadId: string)
    | Stateless(names: seq<string>)
    | Irrelevant

  // ----- lookups that may drop an event

  datatype Missing = NoThreadConnection | NoConnection(connection: nat) | NoThreadMetadata

  /** `thread_connection_or_warn`. */
  function ThreadConnection(s: State, threadId: string): Result<Connection, Missing> {
    if threadId !in s.threads || s.threads[threadId].connection.None? then Err(NoThreadConnection)
    else
      var c := s.threads[threadId].connection.value;
      if c in s.connections then Ok(s.connections[c]) else Err(NoConnection(c))
  }

  function MetaOf(s: State, threadId: string): Option<ThreadMeta> {
    if threadId in s.threads then s.threads[threadId].meta else None
  }

  /** `thread_context_or_warn`. */
  function ThreadContext(s: State, threadId: string): Result<(Connection, ThreadMeta), Missing> {
    match ThreadConnection(s, threadId)
    case Err(m) => Err(m)
    case Ok(c) => (match MetaOf(s, threadId) case Some(meta) => Ok((c, meta)) case None => Err(NoThreadMetadata))
  }

  // ----- turns

  /** How a diff is summarised; the properties below hold for any summary. */
  type Reader = string -> DiffParser.Summary

  function ReaderOf(env: DiffParser.Env): Reader {
    diff =>
      var st := DiffParser.ParseLines(env, DiffParser.EMPTY, DiffParser.Lines(diff));
      DiffParser.Summary(st.added, st.deleted, st.prints)
  }

  function TurnOf(s: State, t: string): Turn {
    if t in s.turns then s.turns[t] else NEW_TURN
  }

  /** The turn a fact is recorded in; a start response needs its pending start request. */
  function Subject(s: State, f: Fact): Option<string> {
    match f
    case StartResponse(key, t) => if key in s.requests && s.requests[key].TurnStart? then Some(t) else None
    case TurnStarted(t, _) => Some(t)
    case DiffUpdated(t, _, _) => Some(t)
    case TurnCompleted(t, _) => Some(t)
    case ResolvedConfig(c) => Some(c.turnId)
    case TokenUsage(t, _, _) => Some(t)
    case _ => None
  }

  /** The turn's entry once the fact is recorded. */
  function Recorded(s: State, f: Fact): Turn
    requires Subject(s, f).Some?
  {
    var turn := TurnOf(s, Subject(s, f).value);
    match f
    case StartResponse(key, _) =>
      var p := s.requests[key];
      turn.(connection := Some(key.connection), threadId := Some(p.threadId), images := Some(p.images))
    case TurnStarted(_, at) => turn.(startedAt := at)
    case DiffUpdated(_, th, diff) => turn.(threadId := Some(th), diff := Some(diff))
    case TurnCompleted(_, c) => turn.(completed := Some(c))
    case ResolvedConfig(c) => turn.(threadId := Some(c.threadId), images := Some(c.images), config := Some(c))
    case TokenUsage(_, th, usage) => turn.(threadId := Some(th), usage := Some(usage))
  }

  /** A turn with every fact it needs, on a known connection and thread. */
  predicate Ready(s: State, turn: Turn) {
    && turn.threadId.Some? && turn.images.Some? && turn.config.Some? && turn.completed.Some?
    && turn.connection.Some? && turn.connection.value in s.connections
    && MetaOf(s, turn.threadId.value).Some?
  }

  /** The fact makes the reducer report turn `t`; a turn start or a diff never does. */
  predicate Completes(s: State, f: Fact, t: string) {
    Subject(s, f) == Some(t) && !f.TurnStarted? && !f.DiffUpdated? && Ready(s, Recorded(s, f))
  }

  function ParamsOf(s: State, t: string, turn: Turn): TurnParams
    requires Ready(s, turn)
  {
    TurnParams(t, turn.threadId.value, s.connections[turn.connection.value], MetaOf(s, turn.threadId.value).value,
               turn.config.value, turn.images.value, turn.completed.value, turn.steers, turn.usage, turn.startedAt)
  }

  /** `accepted_line_event_input`: nothing without a diff that adds or deletes a line. */
  function AcceptedOf(read: Reader, t: string, turn: Turn): seq<Out>
    requires turn.threadId.Some? && turn.config.Some?
  {
    match turn.diff
    case None => []
    case Some(diff) =>
      var summary := read(diff);
      if summary.added == 0 && summary.deleted == 0 then []
      else [AcceptedLines(t, turn.threadId.value, turn.config.value.model,
                          summary.added, summary.deleted, summary.prints)]
  }

  predicate AcceptsSteer(s: State, key: Key) {
    key in s.requests && s.requests[key].TurnSteer?
  }

  // ----- the next state, map by map

  function NextRequests(s: State, f: Fact): map<Key, Pending> {
    match f
    case Requested(key, p) => s.requests[key := p]
    case StartResponse(key, _) => s.requests - {key}
    case SteerResponse(key, _) => s.requests - {key}
    case ErrorResponse(key, _) => s.requests - {key}
    case _ => s.requests
  }

  function NextTurns(s: State, f: Fact): map<string, Turn> {
    if f.SteerResponse? && AcceptsSteer(s, f.key) && f.turnId in s.turns then
      s.turns[f.turnId := s.turns[f.turnId].(steers := s.turns[f.turnId].steers + 1)]
    else match Subject(s, f)
      case Some(t) => if Completes(s, f, t) then s.turns - {t} else s.turns[t := Recorded(s, f)]
      case None => s.turns
  }

  function NextConnections(s: State, f: Fact): map<nat, Connection> {
    if f.Initialize? then s.connections[f.connection := f.client] else s.connections
  }

  function SubAgentMeta(f: Fact): ThreadMeta
    requires f.SubAgentStarted?
  {
    ThreadMeta(Some("subagent"), New, Some(f.source), f.parent)
  }

  /** A subagent keeps the metadata and connection its thread has; else the connection is its parent's. */
  function SubAgentThread(s: State, f: Fact): Thread
    requires f.SubAgentStarted?
  {
    var current := if f.threadId in s.threads then s.threads[f.threadId] else Thread(None, None);
    var inherited :=
      if f.parent.Some? && f.parent.value in s.threads then s.threads[f.parent.value].connection else None;
    Thread(if current.connection.Some? then current.connection else inherited,
           if current.meta.Some? then current.meta else Some(SubAgentMeta(f)))
  }

  function NextThreads(s: State, f: Fact): map<string, Thread> {
    if f.ThreadResponse? && f.connection in s.connections then
      s.threads[f.threadId := Thread(Some(f.connection), Some(f.meta))]
    else if f.SubAgentStarted? then s.threads[f.threadId := SubAgentThread(s, f)]
    else s.threads
  }

  function NextItems(s: State, f: Fact): map<ItemKey, nat> {
    if f.ItemStarted? && f.at.Some? then s.items[f.item := f.at.value]
    else if f.ItemCompleted? then s.items - {f.item}
    else s.items
  }

  // ----- what a fact emits

  function SteerEvents(
    s: State, key: Key, accepted: bool, turnId: Option<string>, rejection: Option<string>): seq<Out>
  {
    if AcceptsSteer(s, key) && key.connection in s.connections && MetaOf(s, s.requests[key].threadId).Some? then
      var p := s.requests[key];
      [SteerEvent(p, accepted, turnId, rejection, s.connections[key.connection], MetaOf(s, p.threadId).value)]
    else []
  }

  function TurnEvents(read: Reader, s: State, f: Fact): seq<Out> {
    match Subject(s, f)
    case Some(t) =>
      if Completes(s, f, t) then
        [TurnEvent(ParamsOf(s, t, Recorded(s, f)))] + AcceptedOf(read, t, Recorded(s, f))
      else []
    case None => []
  }

  function ThreadEvents(s: State, f: Fact): seq<Out> {
    match f
    case ThreadResponse(c, th, meta) =>
      if c in s.connections then [ThreadInitialized(th, Some(s.connections[c]), meta)] else []
    case SubAgentStarted(th, _, _) => [ThreadInitialized(th, None, SubAgentMeta(f))]
    case ItemCompleted(item, at, terminal) =>
      (match ThreadContext(s, item.threadId)
       case Ok((c, meta)) =>
         if item in s.items && at.Some? && terminal then [ToolItem(item, s.items[item], at.value, c, meta)] else []
       case Err(_) => [])
    case Compaction(th) => (match ThreadContext(s, th) case Ok((c, meta)) => [Compacted(th, c, meta)] case Err(_) => [])
    case GuardianReview(th) => (match ThreadConnection(s, th) case Ok(c) => [Reviewed(th, c)] case Err(_) => [])
    case _ => []
  }

  function Names(names: seq<string>): seq<Out> {
    seq(|names|, i requires 0 <= i < |names| => Other(names[i]))
  }

  function Emits(read: Reader, s: State, f: Fact): seq<Out> {
    match f
    case SteerResponse(key, t) => SteerEvents(s, key, true, Some(t), None)
    case ErrorResponse(key, rejection) => SteerEvents(s, key, false, None, rejection)
    case Stateless(names) => Names(names)
    case _ => if Subject(s, f).Some? then TurnEvents(read, s, f) else ThreadEvents(s, f)
  }

  /** One call of `ingest`. */
  function Ingest(read: Reader, s: State, f: Fact): State {
    State(NextRequests(s, f), NextTurns(s, f), NextConnections(s, f), NextThreads(s, f), NextItems(s, f),
          s.out + Emits(read, s, f))
  }

  function Run(read: Reader, s: State, h: seq<Fact>): State
    decreases |h|
  {
    if h == [] then s else Run(read, Ingest(read, s, h[0]), h[1..])
  }

  lemma {:induction false} RunConcat(read: Reader, s: State, a: seq<Fact>, b: seq<Fact>)
    ensures Run(read, s, a + b) == Run(read, Run(read, s, a), b)
    decreases |a|
  {
    if a == [] {
      assert a + b == b;
    } else {
      assert (a + b)[1..] == a[1..] + b;
      RunConcat(read, Ingest(read, s, a[0]), a[1..], b);
    }
  }

  // ----- known threads have metadata and known connections

  ghost predicate ThreadsAreKnown(s: State) {
    forall th :: th in s.threads ==>
      s.threads[th].meta.Some? && (s.threads[th].connection.Some? ==> s.threads[th].connection.value in s.connections)
  }

  lemma {:induction false} IngestKeepsThreadsKnown(read: Reader, s: State, f: Fact)
    requires ThreadsAreKnown(s)
    ensures ThreadsAreKnown(Ingest(read, s, f))
  {
  }

  lemma {:induction false} RunKeepsThreadsKnown(read: Reader, s: State, h: seq<Fact>)
    requires ThreadsAreKnown(s)
    ensures ThreadsAreKnown(Run(read, s, h))
    decreases |h|
  {
    if h != [] {
      IngestKeepsThreadsKnown(read, s, h[0]);
      RunKeepsThreadsKnown(read, Ingest(read, s, h[0]), h[1..]);
    }
  }

  /** In every reachable state the only reason to drop an event is a thread without a connection. */
  lemma {:induction false} OnlyThreadConnectionIsMissing(read: Reader, h: seq<Fact>, threadId: string)
    ensures var s := Run(read, EMPTY, h);
      && (ThreadConnection(s, threadId).Err? ==> ThreadConnection(s, threadId).error == NoThreadConnection)
      && (ThreadContext(s, threadId).Err? ==> ThreadContext(s, threadId).error == NoThreadConnection)
      && (ThreadContext(s, threadId).Ok? <==> threadId in s.threads && s.threads[threadId].connection.Some?)
  {
    RunKeepsThreadsKnown(read, EMPTY, h);
  }

  // ----- the reducer object

  class AnalyticsReducer {
    var requests: map<Key, Pending>
    var turns: map<string, Turn>
    var connections: map<nat, Connection>
    var threads: map<string, Thread>
    var items: map<ItemKey, nat>
    /** The vector every call appends to. */
    var out: seq<Out>

    ghost function View(): State
      reads this
    {
      State(requests, turns, connections, threads, items, out)
    }

    constructor ()
      ensures View() == EMPTY
    {
      requests, turns, connections, threads, items, out := map[], map[], map[], map[], map[], [];
    }

    /** Reports and forgets the turn when it is complete. */
    method MaybeEmitTurnEvent(env: DiffParser.Env, t: string)
      modifies this`turns, this`out
      ensures if t in old(turns) && Ready(old(View()), old(turns)[t]) then
                && turns == old(turns) - {t}
                && out == old(out) + ([TurnEvent(ParamsOf(old(View()), t, old(turns)[t]))]
                                      + AcceptedOf(ReaderOf(env), t, old(turns)[t]))
              else turns == old(turns) && out == old(out)
    {
      if t !in turns {
        return;
      }
      var turn := turns[t];
      if turn.threadId.None? || turn.images.None? || turn.config.None? || turn.completed.None? {
        return;
      }
      if turn.connection.None? || turn.connection.value !in connections {
        return;
      }
      var th := turn.threadId.value;
      if th !in threads || threads[th].meta.None? {
        return;
      }
      var params := TurnParams(t, th, connections[turn.connection.value], threads[th].meta.value, turn.config.value,
                               turn.images.value, turn.completed.value, turn.steers, turn.usage, turn.startedAt);
      out := out + [TurnEvent(params)];
      if turn.diff.Some? {
        var added, deleted, prints := DiffParser.FingerprintsFromUnifiedDiff(env, turn.diff.value);
        if added != 0 || deleted != 0 {
          out := out + [AcceptedLines(t, th, turn.config.value.model, added, deleted, prints)];
        }
      }
      turns := turns - {t};
    }

    method EmitTurnSteerEvent(
      conn: nat, p: Pending, accepted: bool, turnId: Option<string>, rejection: Option<string>)
      requires p.TurnSteer?
      modifies this`out
      ensures out == old(out) +
        if conn in connections && MetaOf(old(View()), p.threadId).Some? then
          [SteerEvent(p, accepted, turnId, rejection, connections[conn], MetaOf(old(View()), p.threadId).value)]
        else []
    {
      if conn !in connections || p.threadId !in threads || threads[p.threadId].meta.None? {
        return;
      }
      out := out + [SteerEvent(p, accepted, turnId, rejection, connections[conn], threads[p.threadId].meta.value)];
    }

    method TakeRequest(key: Key) returns (p: Option<Pending>)
      modifies this`requests
      ensures requests == old(requests) - {key}
      ensures p == if key in old(requests) then Some(old(requests)[key]) else None
    {
      p := if key in requests then Some(requests[key]) else None;
      requests := requests - {key};
    }

    method IngestTurnStartResponse(env: DiffParser.Env, key: Key, t: string)
      modifies this`requests, this`turns, this`out
      ensures View() == Ingest(ReaderOf(env), old(View()), StartResponse(key, t))
    {
      var p := TakeRequest(key);
      if p.None? || !p.value.TurnStart? {
        return;
      }
      var turn := if t in turns then turns[t] else NEW_TURN;
      turns := turns[t := turn.(connection := Some(key.connection), threadId := Some(p.value.threadId),
                              images := Some(p.value.images))];
      RemoveUpdated(old(turns), t, turns[t]);
      MaybeEmitTurnEvent(env, t);
    }

    method IngestTurnSteerResponse(env: DiffParser.Env, key: Key, t: string)
      modifies this`requests, this`turns, this`out
      ensures View() == Ingest(ReaderOf(env), old(View()), SteerResponse(key, t))
    {
      var p := TakeRequest(key);
      if p.None? || !p.value.TurnSteer? {
        return;
      }
      if t in turns {
        turns := turns[t := turns[t].(steers := turns[t].steers + 1)];
      }
      EmitTurnSteerEvent(key.connection, p.value, true, Some(t), None);
    }

    method IngestErrorResponse(env: DiffParser.Env, key: Key, rejection: Option<string>)
      modifies this`requests, this`out
      ensures View() == Ingest(ReaderOf(env), old(View()), ErrorResponse(key, rejection))
    {
      var p := TakeRequest(key);
      if p.Some? && p.value.TurnSteer? {
        EmitTurnSteerEvent(key.connection, p.value, false, None, rejection);
      }
    }

    method IngestItemCompleted(env: DiffParser.Env, item: ItemKey, at: Option<nat>, terminal: bool)
      modifies this`items, this`out
      ensures View() == Ingest(ReaderOf(env), old(View()), ItemCompleted(item, at, terminal))
    {
      if item !in items {
        return;
      }
      var startedAt := items[item];
      items := items - {item};
      if at.None? || item.threadId !in threads || threads[item.threadId].connection.None? {
        return;
      }
      var thread := threads[item.threadId];
      if thread.connection.value !in connections || thread.meta.None? {
        return;
      }
      if terminal {
        out := out + [ToolItem(item, startedAt, at.value, connections[thread.connection.value], thread.meta.value)];
      }
    }

    method IngestSubAgentThreadStarted(env: DiffParser.Env, threadId: string, parent: Option<string>, source: string)
      modifies this`threads, this`out
      ensures View() == Ingest(ReaderOf(env), old(View()), SubAgentStarted(threadId, parent, source))
    {
      var inherited: Option<nat> := None;
      if parent.Some? && parent.value in threads {
        inherited := threads[parent.value].connection;
      }
      var meta := ThreadMeta(Some("subagent"), New, Some(source), parent);
      var thread := if threadId in threads then threads[threadId] else Thread(None, None);
      if thread.meta.None? {
        thread := thread.(meta := Some(meta));
      }
      if thread.connection.None? {
        thread := thread.(connection := inherited);
      }
      threads := threads[threadId := thread];
      out := out + [ThreadInitialized(threadId, None, meta)];
    }

    method IngestThreadResponse(env: DiffParser.Env, connection: nat, threadId: string, meta: ThreadMeta)
      modifies this`threads, this`out
      ensures View() == Ingest(ReaderOf(env), old(View()), ThreadResponse(connection, threadId, meta))
    {
      if connection in connections {
        threads := threads[threadId := Thread(Some(connection), Some(meta))];
        out := out + [ThreadInitialized(threadId, Some(connections[connection]), meta)];
      }
    }

    method IngestThreadEvent(env: DiffParser.Env, f: Fact)
      requires f.Compaction? || f.GuardianReview?
      modifies this`out
      ensures View() == Ingest(ReaderOf(env), old(View()), f)
    {
      if f.threadId !in threads || threads[f.threadId].connection.None? {
        return;
      }
      var thread := threads[f.threadId];
      if thread.connection.value !in connections {
        return;
      }
      if f.GuardianReview? {
        out := out + [Reviewed(f.threadId, connections[thread.connection.value])];
      } else if thread.meta.Some? {
        out := out + [Compacted(f.threadId, connections[thread.connection.value], thread.meta.value)];
      }
    }

    method IngestTurnNotification(env: DiffParser.Env, f: Fact)
      requires f.TurnStarted? || f.DiffUpdated?
      modifies this`turns
      ensures View() == Ingest(ReaderOf(env), old(View()), f)
    {
      match f
      case TurnStarted(t, at) =>
        var turn := if t in turns then turns[t] else NEW_TURN;
        turns := turns[t := turn.(startedAt := at)];
      case DiffUpdated(t, th, diff) =>
        var turn := if t in turns then turns[t] else NEW_TURN;
        turns := turns[t := turn.(threadId := Some(th), diff := Some(diff))];
    }

    method IngestTurnCompleted(env: DiffParser.Env, t: string, c: Completed)
      modifies this`turns, this`out
      ensures View() == Ingest(ReaderOf(env), old(View()), TurnCompleted(t, c))
    {
      var turn := if t in turns then turns[t] else NEW_TURN;
      turns := turns[t := turn.(completed := Some(c))];
      RemoveUpdated(old(turns), t, turns[t]);
      MaybeEmitTurnEvent(env, t);
    }

    method IngestTurnResolvedConfig(env: DiffParser.Env, c: Config)
      modifies this`turns, this`out
      ensures View() == Ingest(ReaderOf(env), old(View()), ResolvedConfig(c))
    {
      var turn := if c.turnId in turns then turns[c.turnId] else NEW_TURN;
      turns := turns[c.turnId := turn.(threadId := Some(c.threadId), images := Some(c.images), config := Some(c))];
      RemoveUpdated(old(turns), c.turnId, turns[c.turnId]);
      MaybeEmitTurnEvent(env, c.turnId);
    }

    method IngestTurnTokenUsage(env: DiffParser.Env, t: string, th: string, usage: string)
      modifies this`turns, this`out
      ensures View() == Ingest(ReaderOf(env), old(View()), TokenUsage(t, th, usage))
    {
      var turn := if t in turns then turns[t] else NEW_TURN;
      turns := turns[t := turn.(threadId := Some(th), usage := Some(usage))];
      RemoveUpdated(old(turns), t, turns[t]);
      MaybeEmitTurnEvent(env, t);
    }

    method IngestFact(env: DiffParser.Env, f: Fact)
      modifies this
      ensures View() == Ingest(ReaderOf(env), old(View()), f)
    {
      match f
      case Initialize(c, client) => connections := connections[c := client];
      case Requested(key, p) => requests := requests[key := p];
      case ThreadResponse(c, th, meta) => IngestThreadResponse(env, c, th, meta);
      case StartResponse(key, t) => IngestTurnStartResponse(env, key, t);
      case SteerResponse(key, t) => IngestTurnSteerResponse(env, key, t);
      case ErrorResponse(key, rejection) => IngestErrorResponse(env, key, rejection);
      case ItemStarted(item, at) =>
        if at.Some? {
          items := items[item := at.value];
        }
      case ItemCompleted(item, at, terminal) => IngestItemCompleted(env, item, at, terminal);
      case TurnStarted(_, _) => IngestTurnNotification(env, f);
      case DiffUpdated(_, _, _) => IngestTurnNotification(env, f);
      case TurnCompleted(t, c) => IngestTurnCompleted(env, t, c);
      case SubAgentStarted(th, parent, source) => IngestSubAgentThreadStarted(env, th, parent, source);
      case ResolvedConfig(c) => IngestTurnResolvedConfig(env, c);
      case TokenUsage(t, th, usage) => IngestTurnTokenUsage(env, t, th, usage);
      case Compaction(_) => IngestThreadEvent(env, f);
      case GuardianReview(_) => IngestThreadEvent(env, f);
      case Stateless(names) => out := out + Names(names);
      case Irrelevant =>
    }
  }
}
