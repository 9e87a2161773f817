/**
 Where the reducer's events come from: over every run, each field of a steer or tool
 event is traced to the facts of the history it reports.
 */
module EventOrigins {
  import opened Text
  import opened Reducer
  import opened TurnAccounting

  /** The state of a new reducer after the first `n` facts. */
  function At(read: Reader, h: seq<Fact>, n: nat): State
    requires n <= |h|
  {
    Run(read, EMPTY, h[..n])
  }

  lemma {:induction false} AtNext(read: Reader, h: seq<Fact>, n: nat)
    requires n < |h|
    ensures At(read, h, n + 1) == Ingest(read, At(read, h, n), h[n])
  {
    assert h[..n + 1] == h[..n] + [h[n]];
    RunOneMore(read, EMPTY, h[..n], h[n]);
  }

  lemma {:induction false} AtEmpty(read: Reader, h: seq<Fact>)
    ensures At(read, h, 0) == EMPTY
  {
    assert h[..0] == [];
  }

  // ----- requests, connections, threads and items come from facts

  /** The fact stores, answers or replaces the request with this key. */
  predicate Touches(f: Fact, key: Key) {
    (f.Requested? || f.StartResponse? || f.SteerResponse? || f.ErrorResponse?) && f.key == key
  }

  lemma {:induction false} RequestOrigin(read: Reader, h: seq<Fact>, n: nat, key: Key) returns (i: nat)
    requires n <= |h| && key in At(read, h, n).requests
    ensures i < n && h[i] == Requested(key, At(read, h, n).requests[key])
    ensures forall k :: i < k < n ==> !Touches(h[k], key)
    decreases n
  {
    AtEmpty(read, h);
    var last := n - 1;
    AtNext(read, h, last);
    if Touches(h[last], key) {
      i := last;
    } else {
      i := RequestOrigin(read, h, last, key);
    }
  }

  /** A request waits from the fact that makes it until another fact has its key. */
  lemma {:induction false} RequestIsKept(read: Reader, h: seq<Fact>, i: nat, n: nat, key: Key, p: Pending)
    requires i < n <= |h| && h[i] == Requested(key, p) && forall k :: i < k < n ==> !Touches(h[k], key)
    ensures key in At(read, h, n).requests && At(read, h, n).requests[key] == p
    decreases n
  {
    AtNext(read, h, n - 1);
    if i < n - 1 {
      RequestIsKept(read, h, i, n - 1, key, p);
    }
  }

  lemma {:induction false} ConnectionIsKept(read: Reader, h: seq<Fact>, i: nat, n: nat, c: nat, client: Connection)
    requires i < n <= |h| && h[i] == Initialize(c, client)
    requires forall k :: i < k < n ==> !(h[k].Initialize? && h[k].connection == c)
    ensures c in At(read, h, n).connections && At(read, h, n).connections[c] == client
    decreases n
  {
    AtNext(read, h, n - 1);
    if i < n - 1 {
      ConnectionIsKept(read, h, i, n - 1, c, client);
    }
  }

  lemma {:induction false} ItemIsKept(read: Reader, h: seq<Fact>, i: nat, n: nat, item: ItemKey, at: nat)
    requires i < n <= |h| && h[i] == ItemStarted(item, Some(at)) && forall k :: i < k < n ==> !HandlesItem(h[k], item)
    ensures item in At(read, h, n).items && At(read, h, n).items[item] == at
    decreases n
  {
    AtNext(read, h, n - 1);
    if i < n - 1 {
      ItemIsKept(read, h, i, n - 1, item, at);
    }
  }

  lemma {:induction false} ThreadIsKept(read: Reader, h: seq<Fact>, i: nat, n: nat, th: string)
    requires i < n <= |h| && Describes(At(read, h, i), h[i], th)
    requires forall k :: i < k < n ==> !Describes(At(read, h, k), h[k], th)
    ensures th in At(read, h, n).threads
    ensures At(read, h, n).threads[th] == Thread(Some(h[i].connection), Some(h[i].meta))
    decreases n
  {
    AtNext(read, h, n - 1);
    if i < n - 1 {
      ThreadIsKept(read, h, i, n - 1, th);
    }
  }

  /** A connection is described by the initialisation that came last on it. */
  lemma {:induction false} ConnectionOrigin(read: Reader, h: seq<Fact>, n: nat, c: nat) returns (i: nat)
    requires n <= |h| && c in At(read, h, n).connections
    ensures i < n && h[i] == Initialize(c, At(read, h, n).connections[c])
    ensures forall k :: i < k < n ==> !(h[k].Initialize? && h[k].connection == c)
    decreases n
  {
    AtEmpty(read, h);
    var last := n - 1;
    AtNext(read, h, last);
    if h[last].Initialize? && h[last].connection == c {
      i := last;
    } else {
      i := ConnectionOrigin(read, h, last, c);
    }
  }

  /** A tracked item holds the start that came last and has not been completed. */
  lemma {:induction false} ItemOrigin(read: Reader, h: seq<Fact>, n: nat, item: ItemKey) returns (i: nat)
    requires n <= |h| && item in At(read, h, n).items
    ensures i < n && h[i] == ItemStarted(item, Some(At(read, h, n).items[item]))
    ensures forall k :: i < k < n ==> !HandlesItem(h[k], item)
    decreases n
  {
    AtEmpty(read, h);
    var last := n - 1;
    AtNext(read, h, last);
    if HandlesItem(h[last], item) {
      i := last;
    } else {
      i := ItemOrigin(read, h, last, item);
    }
  }

  predicate HandlesItem(f: Fact, item: ItemKey) {
    (f.ItemStarted? && f.item == item && f.at.Some?) || (f.ItemCompleted? && f.item == item)
  }

  /** A response that describes the thread, on a connection known by then. */
  predicate Describes(s: State, f: Fact, th: string) {
    f.ThreadResponse? && f.threadId == th && f.connection in s.connections
  }

  /** The thread is as the response says, or as its first subagent start does. */
  predicate DescribedBy(s: State, f: Fact, th: string, thread: Thread) {
    match f
    case ThreadResponse(c, _, meta) => Describes(s, f, th) && thread == Thread(Some(c), Some(meta))
    case SubAgentStarted(t, parent, source) =>
      t == th && th !in s.threads && thread.meta == Some(ThreadMeta(Some("subagent"), New, Some(source), parent))
    case _ => false
  }

  /**
   A thread is described by the last response for it, or else by the first subagent start
   for it; later subagent starts change nothing of a described thread's metadata.
   */
  lemma {:induction false} ThreadOrigin(read: Reader, h: seq<Fact>, n: nat, th: string) returns (i: nat)
    requires n <= |h| && th in At(read, h, n).threads
    ensures i < n
    ensures DescribedBy(At(read, h, i), h[i], th, At(read, h, n).threads[th])
    ensures forall k :: i < k < n ==> !Describes(At(read, h, k), h[k], th)
    decreases n
  {
    AtEmpty(read, h);
    var last := n - 1;
    AtNext(read, h, last);
    var s := At(read, h, last);
    if Describes(s, h[last], th) || th !in s.threads {
      i := last;
    } else {
      i := ThreadOrigin(read, h, last, th);
    }
  }

  // ----- events come from facts

  lemma {:induction false} EmittedBy(read: Reader, h: seq<Fact>, n: nat, o: Out) returns (j: nat)
    requires n <= |h| && o in At(read, h, n).out
    ensures j < n && o in Emits(read, At(read, h, j), h[j])
    decreases n
  {
    AtEmpty(read, h);
    var last := n - 1;
    AtNext(read, h, last);
    if o in Emits(read, At(read, h, last), h[last]) {
      j := last;
    } else {
      j := EmittedBy(read, h, last, o);
    }
  }

  /** The fact answers the request, and the event says how. */
  predicate Tells(f: Fact, key: Key, o: Out) {
    match f
    case SteerResponse(k, t) =>
      k == key && o.SteerEvent? && o.accepted && o.acceptedTurn == Some(t) && o.rejection.None?
    case ErrorResponse(k, why) =>
      k == key && o.SteerEvent? && !o.accepted && o.acceptedTurn.None? && o.rejection == why
    case _ => false
  }

  /** The event's client and thread are those known in `s`. */
  predicate InContext(s: State, key: Key, o: Out) {
    && o.SteerEvent? && key.connection in s.connections && o.client == s.connections[key.connection]
    && MetaOf(s, o.pending.threadId) == Some(o.meta)
  }

  lemma {:induction false} SteerOfStep(read: Reader, s: State, f: Fact, o: Out) returns (key: Key)
    requires o in Emits(read, s, f) && o.SteerEvent?
    ensures key in s.requests && s.requests[key] == o.pending && o.pending.TurnSteer?
    ensures Tells(f, key, o) && InContext(s, key, o)
  {
    match f
    case SteerResponse(k, _) => key := k;
    case ErrorResponse(k, _) => key := k;
    case _ => EmittedSteers(read, s, f);
  }

  lemma {:induction false} ToolItemOfStep(read: Reader, s: State, f: Fact, o: Out)
    requires o in Emits(read, s, f) && o.ToolItem?
    ensures f == ItemCompleted(o.key, Some(o.completedAt), true) && o.key in s.items && s.items[o.key] == o.startedAt
    ensures ThreadContext(s, o.key.threadId) == Ok((o.client, o.meta))
  {
  }

  /**
   Over every run, a steer event is about a steer request (fact `i`) and the first fact
   after it that concerns its key (fact `j`): accepted, with the turn, for a response, and
   rejected, with the reason, for an error; its client and thread are those known by then.
   */
  lemma {:induction false} SteerEventTellsItsAnswer(read: Reader, h: seq<Fact>, o: Out)
    returns (i: nat, j: nat, key: Key)
    requires o in Run(read, EMPTY, h).out && o.SteerEvent?
    ensures i < j < |h| && h[i] == Requested(key, o.pending) && o.pending.TurnSteer? && Tells(h[j], key, o)
    ensures forall k :: i < k < j ==> !Touches(h[k], key)
    ensures InContext(At(read, h, j), key, o)
  {
    assert h[..|h|] == h;
    j := EmittedBy(read, h, |h|, o);
    key := SteerOfStep(read, At(read, h, j), h[j], o);
    i := RequestOrigin(read, h, j, key);
  }

  /**
   Over every run, a tool event is about the last start of its item (fact `i`) and its
   completion (fact `j`), each with its own time, on the thread's connection.
   */
  lemma {:induction false} ToolItemTellsItsTimes(read: Reader, h: seq<Fact>, o: Out) returns (i: nat, j: nat)
    requires o in Run(read, EMPTY, h).out && o.ToolItem?
    ensures i < j < |h|
    ensures h[i] == ItemStarted(o.key, Some(o.startedAt)) && h[j] == ItemCompleted(o.key, Some(o.completedAt), true)
    ensures forall k :: i < k < j ==> !HandlesItem(h[k], o.key)
    ensures ThreadContext(At(read, h, j), o.key.threadId) == Ok((o.client, o.meta))
  {
    assert h[..|h|] == h;
    j := EmittedBy(read, h, |h|, o);
    ToolItemOfStep(read, At(read, h, j), h[j], o);
    i := ItemOrigin(read, h, j, o.key);
  }

  /** A completed item is reported when its start is known and its thread has a connection, and is then forgotten. */
  lemma {:induction false} ToolItemIsReported(
    read: Reader, h: seq<Fact>, item: ItemKey, at: Option<nat>, terminal: bool)
    ensures var s := Run(read, EMPTY, h);
      var s' := Ingest(read, s, ItemCompleted(item, at, terminal));
      && item !in s'.items
      && (|s'.out| > |s.out| <==>
            item in s.items && at.Some? && terminal
            && item.threadId in s.threads && s.threads[item.threadId].connection.Some?)
  {
    OnlyThreadConnectionIsMissing(read, h, item.threadId);
  }

  /** A subagent's thread speaks over its parent's connection until it has one of its own. */
  lemma {:induction false} SubAgentInherits(read: Reader, s: State, th: string, parent: string, source: string)
    requires th != parent
    ensures var s' := Ingest(read, s, SubAgentStarted(th, Some(parent), source));
      if ThreadConnection(s, th) == Err(NoThreadConnection) then ThreadConnection(s', th) == ThreadConnection(s, parent)
      else ThreadConnection(s', th) == ThreadConnection(s, th)
  {
  }

  /** The fact is what the event about a thread reports. */
  predicate Announces(s: State, f: Fact, o: Out) {
    match o
    case ThreadInitialized(th, through, meta) =>
      if through.Some? then
        f.ThreadResponse? && f.threadId == th && f.meta == meta
        && f.connection in s.connections && through.value == s.connections[f.connection]
      else f.SubAgentStarted? && f.threadId == th && meta == ThreadMeta(Some("subagent"), New, Some(f.source), f.parent)
    case Compacted(th, client, meta) => f == Compaction(th) && ThreadContext(s, th) == Ok((client, meta))
    case Reviewed(th, client) => f == GuardianReview(th) && ThreadConnection(s, th) == Ok(client)
    case Other(name) => f.Stateless? && name in f.names
    case _ => true
  }

  /** Over every run, an event about a thread is announced by a fact of the history. */
  lemma {:induction false} ThreadEventsAreAnnounced(read: Reader, h: seq<Fact>, o: Out) returns (j: nat)
    requires o in Run(read, EMPTY, h).out
    ensures j < |h| && Announces(At(read, h, j), h[j], o)
  {
    assert h[..|h|] == h;
    j := EmittedBy(read, h, |h|, o);
    EmittedIsAnnounced(read, At(read, h, j), h[j], o);
  }

  lemma {:induction false} EmittedIsAnnounced(read: Reader, s: State, f: Fact, o: Out)
    requires o in Emits(read, s, f)
    ensures Announces(s, f, o)
  {
  }
}
