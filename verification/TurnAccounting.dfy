/** What the reducer may emit over any run: turn events, steer events and steer counts. */
module TurnAccounting {
  import opened Text
  import opened Reducer

  // ----- the events of one kind

  datatype Kind = Turns(turnId: string) | Lines(turnId: string) | Steers

  predicate Is(k: Kind, o: Out) {
    match k
    case Turns(t) => o.TurnEvent? && o.params.turnId == t
    case Lines(t) => o.AcceptedLines? && o.turnId == t
    case Steers => o.SteerEvent?
  }

  function Select(k: Kind, out: seq<Out>): seq<Out> {
    if out == [] then []
    else Select(k, out[..|out| - 1]) + (if Is(k, out[|out| - 1]) then [out[|out| - 1]] else [])
  }

  lemma {:induction false} SelectConcat(k: Kind, a: seq<Out>, b: seq<Out>)
    ensures Select(k, a + b) == Select(k, a) + Select(k, b)
    decreases |b|
  {
    if b == [] {
      assert a + b == a;
    } else {
      var n := |b| - 1;
      assert (a + b)[..|a + b| - 1] == a + b[..n];
      SelectConcat(k, a, b[..n]);
    }
  }

  lemma {:induction false} SelectNone(k: Kind, out: seq<Out>)
    requires forall o :: o in out ==> !Is(k, o)
    ensures Select(k, out) == []
    decreases |out|
  {
    if out != [] {
      SelectNone(k, out[..|out| - 1]);
    }
  }

  // ----- what one fact emits

  lemma {:induction false} EmittedOther(read: Reader, s: State, f: Fact, t: string)
    requires !Completes(s, f, t)
    ensures forall o :: o in Emits(read, s, f) ==> !Is(Turns(t), o) && !Is(Lines(t), o)
  {
  }

  /** A fact adds a turn event for `t` exactly when it completes `t`, with the lines of its diff. */
  lemma {:induction false} TurnEventsOfStep(read: Reader, s: State, f: Fact, t: string)
    ensures var s' := Ingest(read, s, f);
      if Completes(s, f, t) then
        && Select(Turns(t), s'.out) == Select(Turns(t), s.out) + [TurnEvent(ParamsOf(s, t, Recorded(s, f)))]
        && Select(Lines(t), s'.out) == Select(Lines(t), s.out) + AcceptedOf(read, t, Recorded(s, f))
      else
        && Select(Turns(t), s'.out) == Select(Turns(t), s.out)
        && Select(Lines(t), s'.out) == Select(Lines(t), s.out)
  {
    var e := Emits(read, s, f);
    SelectConcat(Turns(t), s.out, e);
    SelectConcat(Lines(t), s.out, e);
    if Completes(s, f, t) {
      SelectSingle(read, t, ParamsOf(s, t, Recorded(s, f)), Recorded(s, f));
    } else {
      EmittedOther(read, s, f, t);
      SelectNone(Turns(t), e);
      SelectNone(Lines(t), e);
    }
  }

  lemma {:induction false} SelectSingle(read: Reader, t: string, p: TurnParams, turn: Turn)
    requires p.turnId == t && turn.threadId.Some? && turn.config.Some?
    ensures Select(Turns(t), [TurnEvent(p)] + AcceptedOf(read, t, turn)) == [TurnEvent(p)]
    ensures Select(Lines(t), [TurnEvent(p)] + AcceptedOf(read, t, turn)) == AcceptedOf(read, t, turn)
  {
    var a := AcceptedOf(read, t, turn);
    SelectConcat(Turns(t), [TurnEvent(p)], a);
    SelectConcat(Lines(t), [TurnEvent(p)], a);
    assert |a| <= 1;
    assert a != [] ==> a == [a[0]];
  }

  // ----- turn events never outnumber what makes a turn

  datatype Need = Started | Configured | Finished

  /** The fact supplies `need` for turn `t`; a start response only when it matches its request. */
  predicate Supplies(s: State, f: Fact, t: string, need: Need) {
    match need
    case Started => f.StartResponse? && Subject(s, f) == Some(t)
    case Configured => f.ResolvedConfig? && f.config.turnId == t
    case Finished => f.TurnCompleted? && f.turnId == t
  }

  predicate Holds(turn: Turn, need: Need) {
    match need
    case Started => turn.connection.Some?
    case Configured => turn.config.Some?
    case Finished => turn.completed.Some?
  }

  function Supply(read: Reader, s: State, h: seq<Fact>, t: string, need: Need): nat
    decreases |h|
  {
    if h == [] then 0
    else (if Supplies(s, h[0], t, need) then 1 else 0) + Supply(read, Ingest(read, s, h[0]), h[1..], t, need)
  }

  /** Turn events for `t`, and one more when its entry already holds `need`. */
  function Used(s: State, t: string, need: Need): nat {
    |Select(Turns(t), s.out)| + if t in s.turns && Holds(s.turns[t], need) then 1 else 0
  }

  lemma {:induction false} StepUsesWhatItIsGiven(read: Reader, s: State, f: Fact, t: string, need: Need)
    ensures Used(Ingest(read, s, f), t, need) <= Used(s, t, need) + if Supplies(s, f, t, need) then 1 else 0
  {
    TurnEventsOfStep(read, s, f, t);
  }

  lemma {:induction false} RunUsesWhatItIsGiven(read: Reader, s: State, h: seq<Fact>, t: string, need: Need)
    ensures Used(Run(read, s, h), t, need) <= Used(s, t, need) + Supply(read, s, h, t, need)
    decreases |h|
  {
    if h != [] {
      StepUsesWhatItIsGiven(read, s, h[0], t, need);
      RunUsesWhatItIsGiven(read, Ingest(read, s, h[0]), h[1..], t, need);
    }
  }

  /**
   Over every run of a new reducer, the turn events for a turn are at most the matched start
   responses, at most the resolved configurations and at most the completions for it.
   */
  lemma {:induction false} TurnEventsAreBounded(read: Reader, h: seq<Fact>, t: string, need: Need)
    ensures |Select(Turns(t), Run(read, EMPTY, h).out)| <= Supply(read, EMPTY, h, t, need)
  {
    RunUsesWhatItIsGiven(read, EMPTY, h, t, need);
  }

  // ----- every steer request is accounted for

  ghost function SteersIn(requests: map<Key, Pending>): set<Key> {
    set k | k in requests && requests[k].TurnSteer?
  }

  ghost function PendingSteers(s: State): set<Key> {
    SteersIn(s.requests)
  }

  lemma {:induction false} InsertRequest(m: map<Key, Pending>, key: Key, p: Pending)
    ensures |SteersIn(m[key := p])| + (if key in SteersIn(m) then 1 else 0) ==
            |SteersIn(m)| + if p.TurnSteer? then 1 else 0
  {
    if p.TurnSteer? {
      assert SteersIn(m[key := p]) == SteersIn(m) + {key};
    } else {
      assert SteersIn(m[key := p]) == SteersIn(m) - {key};
    }
  }

  lemma {:induction false} RemoveRequest(m: map<Key, Pending>, key: Key)
    ensures |SteersIn(m - {key})| + (if key in SteersIn(m) then 1 else 0) == |SteersIn(m)|
  {
    assert SteersIn(m - {key}) == SteersIn(m) - {key};
  }

  predicate AsksToSteer(f: Fact) {
    f.Requested? && f.pending.TurnSteer?
  }

  predicate HasContext(s: State, key: Key) {
    key in s.requests && key.connection in s.connections && MetaOf(s, s.requests[key].threadId).Some?
  }

  /**
   The fact discards a pending steer without an event: a new request takes its key, a
   start response takes it, or its connection or thread is unknown when it is answered.
   */
  predicate LosesSteer(s: State, f: Fact) {
    match f
    case Requested(key, _) => AcceptsSteer(s, key)
    case StartResponse(key, _) => AcceptsSteer(s, key)
    case SteerResponse(key, _) => AcceptsSteer(s, key) && !HasContext(s, key)
    case ErrorResponse(key, _) => AcceptsSteer(s, key) && !HasContext(s, key)
    case _ => false
  }

  predicate ReportsSteer(s: State, f: Fact) {
    (f.SteerResponse? || f.ErrorResponse?) && AcceptsSteer(s, f.key) && HasContext(s, f.key)
  }

  lemma {:induction false} EmittedSteers(read: Reader, s: State, f: Fact)
    ensures ReportsSteer(s, f) ==> |Emits(read, s, f)| == 1 && Is(Steers, Emits(read, s, f)[0])
    ensures !ReportsSteer(s, f) ==> forall o :: o in Emits(read, s, f) ==> !Is(Steers, o)
  {
  }

  lemma {:induction false} SelectOne(k: Kind, out: seq<Out>)
    requires |out| == 1 && Is(k, out[0])
    ensures |Select(k, out)| == 1
  {
    assert out[..0] == [];
  }

  lemma {:induction false} SteerEventsOfStep(read: Reader, s: State, f: Fact)
    ensures |Select(Steers, Ingest(read, s, f).out)| == |Select(Steers, s.out)| + if ReportsSteer(s, f) then 1 else 0
  {
    var e := Emits(read, s, f);
    SelectConcat(Steers, s.out, e);
    EmittedSteers(read, s, f);
    if ReportsSteer(s, f) {
      SelectOne(Steers, e);
    } else {
      SelectNone(Steers, e);
    }
  }

  lemma {:induction false} PendingAfter(read: Reader, s: State, f: Fact)
    ensures
      |PendingSteers(Ingest(read, s, f))| + (if ReportsSteer(s, f) then 1 else 0) + (if LosesSteer(s, f) then 1 else 0)
      == |PendingSteers(s)| + if AsksToSteer(f) then 1 else 0
  {
    match f
    case Requested(key, p) => InsertRequest(s.requests, key, p);
    case StartResponse(key, _) => RemoveRequest(s.requests, key);
    case SteerResponse(key, _) => RemoveRequest(s.requests, key);
    case ErrorResponse(key, _) => RemoveRequest(s.requests, key);
    case _ =>
  }

  function SteersAsked(h: seq<Fact>): nat {
    if h == [] then 0 else (if AsksToSteer(h[0]) then 1 else 0) + SteersAsked(h[1..])
  }

  function SteersLost(read: Reader, s: State, h: seq<Fact>): nat
    decreases |h|
  {
    if h == [] then 0 else (if LosesSteer(s, h[0]) then 1 else 0) + SteersLost(read, Ingest(read, s, h[0]), h[1..])
  }

  lemma {:induction false} SteersBalance(read: Reader, s: State, h: seq<Fact>)
    ensures var s' := Run(read, s, h);
      |Select(Steers, s'.out)| + |PendingSteers(s')| + SteersLost(read, s, h) ==
      |Select(Steers, s.out)| + |PendingSteers(s)| + SteersAsked(h)
    decreases |h|
  {
    if h != [] {
      SteerEventsOfStep(read, s, h[0]);
      PendingAfter(read, s, h[0]);
      SteersBalance(read, Ingest(read, s, h[0]), h[1..]);
    }
  }

  /** Steer requests are exactly the steer events, the pending ones and the discarded ones. */
  lemma {:induction false} EverySteerIsAccountedFor(read: Reader, h: seq<Fact>)
    ensures var s := Run(read, EMPTY, h);
      |Select(Steers, s.out)| + |PendingSteers(s)| + SteersLost(read, EMPTY, h) == SteersAsked(h)
  {
    SteersBalance(read, EMPTY, h);
    assert PendingSteers(EMPTY) == {};
  }

  // ----- the steer count of a turn event

  predicate SteersTurn(s: State, f: Fact, t: string) {
    f.SteerResponse? && f.turnId == t && AcceptsSteer(s, f.key)
  }

  /** The steers accepted for `t` in a run. */
  function AcceptedSteers(read: Reader, s: State, h: seq<Fact>, t: string): nat
    decreases |h|
  {
    if h == [] then 0
    else (if SteersTurn(s, h[0], t) then 1 else 0) + AcceptedSteers(read, Ingest(read, s, h[0]), h[1..], t)
  }

  /** `t` has an entry from here to the end of the run. */
  predicate StaysOpen(read: Reader, s: State, h: seq<Fact>, t: string)
    decreases |h|
  {
    t in s.turns && (h == [] || StaysOpen(read, Ingest(read, s, h[0]), h[1..], t))
  }

  lemma {:induction false} StepCountsSteers(read: Reader, s: State, f: Fact, t: string)
    ensures var s' := Ingest(read, s, f);
      t in s'.turns ==>
        s'.turns[t].steers == if t !in s.turns then 0 else s.turns[t].steers + if SteersTurn(s, f, t) then 1 else 0
  {
  }

  lemma {:induction false} OneMoreFact(read: Reader, s: State, h: seq<Fact>, f: Fact, t: string)
    requires StaysOpen(read, s, h, t) && t in Ingest(read, Run(read, s, h), f).turns
    ensures StaysOpen(read, s, h + [f], t)
    ensures AcceptedSteers(read, s, h + [f], t) ==
      AcceptedSteers(read, s, h, t) + if SteersTurn(Run(read, s, h), f, t) then 1 else 0
    decreases |h|
  {
    if h == [] {
      assert h + [f] == [f] && [f][1..] == [];
      assert AcceptedSteers(read, Ingest(read, s, f), [], t) == 0;
    } else {
      assert (h + [f])[1..] == h[1..] + [f];
      OneMoreFact(read, Ingest(read, s, h[0]), h[1..], f, t);
    }
  }

  lemma {:induction false} RunOneMore(read: Reader, s: State, h: seq<Fact>, f: Fact)
    ensures Run(read, s, h + [f]) == Ingest(read, Run(read, s, h), f)
  {
    RunConcat(read, s, h, [f]);
    assert [f][1..] == [];
    assert Run(read, Run(read, s, h), [f]) == Ingest(read, Run(read, s, h), f);
  }

  /** The run `h` splits into what came before the present entry, the fact that made it, and the rest. */
  ghost predicate MadeBy(read: Reader, h: seq<Fact>, t: string, before: seq<Fact>, made: Fact, since: seq<Fact>) {
    && h == before + [made] + since
    && t !in Run(read, EMPTY, before).turns
    && StaysOpen(read, Run(read, EMPTY, before + [made]), since, t)
  }

  lemma {:induction false} StillMadeBy(
    read: Reader, h: seq<Fact>, f: Fact, t: string, before: seq<Fact>, made: Fact, since: seq<Fact>)
    requires MadeBy(read, h, t, before, made, since) && t in Run(read, EMPTY, h + [f]).turns
    ensures MadeBy(read, h + [f], t, before, made, since + [f])
    ensures var s := Run(read, EMPTY, before + [made]);
      AcceptedSteers(read, s, since + [f], t) ==
      AcceptedSteers(read, s, since, t) + if SteersTurn(Run(read, EMPTY, h), f, t) then 1 else 0
  {
    RunOneMore(read, EMPTY, h, f);
    RunConcat(read, EMPTY, before + [made], since);
    OneMoreFact(read, Run(read, EMPTY, before + [made]), since, f, t);
    Regroup(before + [made], since, [f]);
  }

  /** An entry counts the steers accepted since it was made. */
  lemma {:induction false} EntryCountsItsSteers(read: Reader, h: seq<Fact>, t: string)
    returns (before: seq<Fact>, made: Fact, since: seq<Fact>)
    requires t in Run(read, EMPTY, h).turns
    ensures MadeBy(read, h, t, before, made, since)
    ensures Run(read, EMPTY, h).turns[t].steers == AcceptedSteers(read, Run(read, EMPTY, before + [made]), since, t)
    decreases |h|
  {
    var n := |h| - 1;
    var past, f := h[..n], h[n];
    assert h == past + [f];
    RunOneMore(read, EMPTY, past, f);
    StepCountsSteers(read, Run(read, EMPTY, past), f, t);
    if t in Run(read, EMPTY, past).turns {
      var rest;
      before, made, rest := EntryCountsItsSteers(read, past, t);
      StillMadeBy(read, past, f, t, before, made, rest);
      since := rest + [f];
    } else {
      before, made, since := past, f, [];
      assert past + [f] + [] == h;
    }
  }

  /** A turn event reports the steers accepted since the fact that made the turn's entry. */
  lemma {:induction false} TurnEventCountsItsSteers(read: Reader, h: seq<Fact>, f: Fact, t: string)
    returns (before: seq<Fact>, made: Fact, since: seq<Fact>)
    requires Completes(Run(read, EMPTY, h), f, t)
    ensures MadeBy(read, h, t, before, made, since)
    ensures var s := Run(read, EMPTY, h);
      && Select(Turns(t), Ingest(read, s, f).out) ==
         Select(Turns(t), s.out) + [TurnEvent(ParamsOf(s, t, Recorded(s, f)))]
      && ParamsOf(s, t, Recorded(s, f)).steers == AcceptedSteers(read, Run(read, EMPTY, before + [made]), since, t)
  {
    TurnEventsOfStep(read, Run(read, EMPTY, h), f, t);
    before, made, since := EntryCountsItsSteers(read, h, t);
  }
}
