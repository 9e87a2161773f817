/**
 A turn's facts may arrive in any order, some of them more than once, and mixed with
 facts about anything else: the turn is reported once, with what came last of each
 kind, and forgotten.
 */
module TurnOrder {
  import opened Text
  import opened Reducer
  import opened TurnAccounting
  import DiffParser

  /** One turn: its thread and images as the start request gave them, on a known connection and thread. */
  datatype Story = Story(
    turnId: string, threadId: string, images: nat, key: Key, client: Connection, meta: ThreadMeta)
  {
    function FactOf(p: Part): Fact {
      match p
      case Answered => StartResponse(key, turnId)
      case Settled(config) => ResolvedConfig(config)
      case Ended(completed) => TurnCompleted(turnId, completed)
      case Began(startedAt) => TurnStarted(turnId, startedAt)
      case Used(usage) => TokenUsage(turnId, threadId, usage)
      case Changed(diff) => DiffUpdated(turnId, threadId, diff)
    }

    /** A configuration agrees with the request on the turn, the thread and the images. */
    predicate Agrees(config: Config) {
      config.turnId == turnId && config.threadId == threadId && config.images == images
    }

    /** What the entry holds, given what came last of each kind and `n` steers. */
    function Entry(l: Last, n: nat): Turn {
      Turn(
        if l.answered then Some(key.connection) else None,
        if l.answered || l.config.Some? || l.usage.Some? || l.diff.Some? then Some(threadId) else None,
        if l.answered || l.config.Some? then Some(images) else None,
        l.config, if l.began.Some? then l.began.value else None, l.usage, l.completed, l.diff, n)
    }

    /** The event's payload, from what came last of each kind and the number of steers alone. */
    function Payload(l: Last, n: nat): TurnParams
      requires l.IsComplete()
    {
      TurnParams(turnId, threadId, client, meta, l.config.value, images, l.completed.value, n, l.usage,
                 if l.began.Some? then l.began.value else None)
    }

    /** The accepted-lines report: of the last diff, when there is one that adds or deletes a line. */
    function LinesOf(read: Reader, l: Last): seq<Out>
      requires l.IsComplete()
    {
      if l.diff.None? then []
      else
        var sum := read(l.diff.value);
        if sum.added == 0 && sum.deleted == 0 then []
        else [AcceptedLines(turnId, threadId, l.config.value.model, sum.added, sum.deleted, sum.prints)]
    }

    /**
     A fact that is not a part of this turn nor about its request, its connection's or its
     thread's description. Steers of this very turn are allowed.
     */
    predicate Foreign(f: Fact) {
      match f
      case Initialize(c, _) => c != key.connection
      case Requested(k, _) => k != key
      case ThreadResponse(_, th, _) => th != threadId
      case StartResponse(k, t) => k != key && t != turnId
      case SteerResponse(k, _) => k != key
      case ErrorResponse(k, _) => k != key
      case TurnStarted(t, _) => t != turnId
      case DiffUpdated(t, _, _) => t != turnId
      case TurnCompleted(t, _) => t != turnId
      case ResolvedConfig(c) => c.turnId != turnId
      case TokenUsage(t, _, _) => t != turnId
      case _ => true
    }

    /** The connection and the thread are known. */
    predicate Placed(s: State) {
      && key.connection in s.connections && s.connections[key.connection] == client
      && MetaOf(s, threadId) == Some(meta)
    }

    /** The start request is still waiting for its response, or has been answered. */
    predicate Asked(s: State, answered: bool) {
      if answered then key !in s.requests else key in s.requests && s.requests[key] == TurnStart(threadId, images)
    }

    /** The turn is open, holding what came last of each kind and `n` steers. */
    predicate Open(s: State, l: Last, n: nat) {
      && Placed(s) && Asked(s, l.answered) && !l.IsComplete()
      && (l.config.Some? ==> Agrees(l.config.value))
      && (if l == NOTHING then turnId !in s.turns && n == 0 else turnId in s.turns && s.turns[turnId] == Entry(l, n))
    }
  }

  /** A fact of the turn: a start response, a configuration and a completion are needed, the others may be missing. */
  datatype Part =
    | Answered
    | Settled(config: Config)
    | Ended(completed: Completed)
    | Began(startedAt: Option<nat>)
    | Used(usage: string)
    | Changed(diff: string)

  /** What came last of each kind. */
  datatype Last = Last(
    answered: bool, config: Option<Config>, completed: Option<Completed>, began: Option<Option<nat>>,
    usage: Option<string>, diff: Option<string>)
  {
    predicate IsComplete() {
      answered && config.Some? && completed.Some?
    }
  }

  const NOTHING := Last(false, None, None, None, None, None)

  /** A fact of the turn, or any other fact. */
  datatype Item = Own(part: Part) | Other(fact: Fact)

  function FactAt(c: Story, i: Item): Fact {
    match i
    case Own(p) => c.FactOf(p)
    case Other(f) => f
  }

  function Facts(c: Story, h: seq<Item>): seq<Fact> {
    seq(|h|, i requires 0 <= i < |h| => FactAt(c, h[i]))
  }

  // ----- what came last, kind by kind

  function LastConfig(h: seq<Item>): Option<Config> {
    if h == [] then None
    else match h[|h| - 1] case Own(Settled(c)) => Some(c) case _ => LastConfig(h[..|h| - 1])
  }

  function LastCompleted(h: seq<Item>): Option<Completed> {
    if h == [] then None
    else match h[|h| - 1] case Own(Ended(c)) => Some(c) case _ => LastCompleted(h[..|h| - 1])
  }

  function LastBegan(h: seq<Item>): Option<Option<nat>> {
    if h == [] then None
    else match h[|h| - 1] case Own(Began(at)) => Some(at) case _ => LastBegan(h[..|h| - 1])
  }

  function LastUsage(h: seq<Item>): Option<string> {
    if h == [] then None
    else match h[|h| - 1] case Own(Used(u)) => Some(u) case _ => LastUsage(h[..|h| - 1])
  }

  function LastDiff(h: seq<Item>): Option<string> {
    if h == [] then None
    else match h[|h| - 1] case Own(Changed(d)) => Some(d) case _ => LastDiff(h[..|h| - 1])
  }

  function LastOf(h: seq<Item>): Last {
    Last(Own(Answered) in h, LastConfig(h), LastCompleted(h), LastBegan(h), LastUsage(h), LastDiff(h))
  }

  /** One more item replaces what came last of its kind. */
  function Replace(l: Last, i: Item): Last {
    match i
    case Own(Answered) => l.(answered := true)
    case Own(Settled(c)) => l.(config := Some(c))
    case Own(Ended(c)) => l.(completed := Some(c))
    case Own(Began(at)) => l.(began := Some(at))
    case Own(Used(u)) => l.(usage := Some(u))
    case Own(Changed(d)) => l.(diff := Some(d))
    case Other(_) => l
  }

  lemma {:induction false} LastOfSnoc(h: seq<Item>, i: Item)
    ensures LastOf(h + [i]) == Replace(LastOf(h), i)
  {
    assert (h + [i])[..|h|] == h && (h + [i])[|h|] == i;
  }

  /** Configurations agree with the request, and the other facts are foreign. */
  predicate Fitting(c: Story, i: Item) {
    match i
    case Own(Settled(config)) => c.Agrees(config)
    case Own(_) => true
    case Other(f) => c.Foreign(f)
  }

  predicate WellMixed(c: Story, h: seq<Item>) {
    forall i :: 0 <= i < |h| ==> Fitting(c, h[i])
  }

  // ----- steers

  /** A steer is accepted for the turn while it has an entry. */
  predicate Counts(s: State, f: Fact, t: string) {
    t in s.turns && SteersTurn(s, f, t)
  }

  /** The steers counted for the turn over a run. */
  function SteersCounted(read: Reader, s: State, facts: seq<Fact>, t: string): nat
    decreases |facts|
  {
    if facts == [] then 0
    else
      var n := |facts| - 1;
      SteersCounted(read, s, facts[..n], t) + if Counts(Run(read, s, facts[..n]), facts[n], t) then 1 else 0
  }

  /** The entry after a foreign fact: one steer more, if the fact is one that counts. */
  function Steered(s: State, f: Fact, t: string): Turn
    requires t in s.turns
  {
    s.turns[t].(steers := s.turns[t].steers + if Counts(s, f, t) then 1 else 0)
  }

  // ----- one step

  lemma {:induction false} ForeignKeepsPlace(read: Reader, c: Story, s: State, f: Fact)
    requires c.Foreign(f)
    ensures var s' := Ingest(read, s, f);
      && (c.key in s'.requests <==> c.key in s.requests)
      && (c.key in s.requests ==> s'.requests[c.key] == s.requests[c.key])
      && (c.Placed(s) ==> c.Placed(s'))
  {
  }

  lemma {:induction false} ForeignIsElsewhere(c: Story, s: State, f: Fact)
    requires c.Foreign(f)
    ensures Subject(s, f) != Some(c.turnId)
  {
  }

  lemma {:induction false} OtherTurnsStay(s: State, f: Fact, t: string)
    requires Subject(s, f) != Some(t)
    ensures t in NextTurns(s, f) <==> t in s.turns
    ensures t in s.turns ==> NextTurns(s, f)[t] == Steered(s, f, t)
  {
  }

  /** Nothing about the turn was emitted. */
  ghost predicate SameReports(s: State, s': State, t: string) {
    Select(Turns(t), s'.out) == Select(Turns(t), s.out) && Select(Lines(t), s'.out) == Select(Lines(t), s.out)
  }

  lemma {:induction false} ForeignStep(read: Reader, c: Story, s: State, f: Fact)
    requires c.Foreign(f)
    ensures var s' := Ingest(read, s, f);
      && (c.turnId in s'.turns <==> c.turnId in s.turns)
      && (c.turnId in s.turns ==> s'.turns[c.turnId] == Steered(s, f, c.turnId))
      && SameReports(s, s', c.turnId)
  {
    ForeignIsElsewhere(c, s, f);
    OtherTurnsStay(s, f, c.turnId);
    TurnEventsOfStep(read, s, f, c.turnId);
  }

  lemma {:induction false} OpenAfterForeign(read: Reader, c: Story, s: State, l: Last, n: nat, f: Fact)
    requires c.Open(s, l, n) && c.Foreign(f)
    ensures c.Open(Ingest(read, s, f), l, n + if Counts(s, f, c.turnId) then 1 else 0)
    ensures SameReports(s, Ingest(read, s, f), c.turnId)
  {
    ForeignKeepsPlace(read, c, s, f);
    ForeignStep(read, c, s, f);
  }

  /** The fact is recorded in the turn's entry; a second start response is not. */
  lemma {:induction false} OwnIsRecorded(c: Story, s: State, l: Last, n: nat, p: Part)
    requires c.Open(s, l, n) && Fitting(c, Own(p)) && !(p.Answered? && l.answered)
    ensures var f := c.FactOf(p);
      Subject(s, f) == Some(c.turnId) && Recorded(s, f) == c.Entry(Replace(l, Own(p)), n)
  {
    assert TurnOf(s, c.turnId) == c.Entry(l, n);
  }

  lemma {:induction false} OwnKeepsPlace(read: Reader, c: Story, s: State, l: Last, p: Part)
    requires c.Placed(s) && c.Asked(s, l.answered)
    ensures var s' := Ingest(read, s, c.FactOf(p)); c.Placed(s') && c.Asked(s', Replace(l, Own(p)).answered)
  {
  }

  lemma {:induction false} OwnStep(read: Reader, c: Story, s: State, l: Last, n: nat, p: Part)
    requires c.Open(s, l, n) && Fitting(c, Own(p)) && !Replace(l, Own(p)).IsComplete()
    ensures !Counts(s, c.FactOf(p), c.turnId)
    ensures c.Open(Ingest(read, s, c.FactOf(p)), Replace(l, Own(p)), n)
    ensures SameReports(s, Ingest(read, s, c.FactOf(p)), c.turnId)
  {
    OwnKeepsPlace(read, c, s, l, p);
    TurnEventsOfStep(read, s, c.FactOf(p), c.turnId);
    if p.Answered? && l.answered {
      assert Subject(s, c.FactOf(p)) == None && Replace(l, Own(p)) == l;
    } else {
      OwnIsRecorded(c, s, l, n, p);
    }
  }

  lemma {:induction false} LastStep(read: Reader, c: Story, s: State, l: Last, n: nat, p: Part)
    requires c.Open(s, l, n) && Fitting(c, Own(p)) && Replace(l, Own(p)).IsComplete()
    ensures var s', l' := Ingest(read, s, c.FactOf(p)), Replace(l, Own(p));
      && c.turnId !in s'.turns
      && Select(Turns(c.turnId), s'.out) == Select(Turns(c.turnId), s.out) + [TurnEvent(c.Payload(l', n))]
      && Select(Lines(c.turnId), s'.out) == Select(Lines(c.turnId), s.out) + c.LinesOf(read, l')
  {
    OwnIsRecorded(c, s, l, n, p);
    TurnEventsOfStep(read, s, c.FactOf(p), c.turnId);
  }

  // ----- whole runs

  lemma {:induction false} FactsSnoc(c: Story, h: seq<Item>, i: Item)
    ensures Facts(c, h + [i]) == Facts(c, h) + [FactAt(c, i)]
  {
  }

  lemma {:induction false} SteersSnoc(read: Reader, s: State, facts: seq<Fact>, f: Fact, t: string)
    ensures SteersCounted(read, s, facts + [f], t) ==
      SteersCounted(read, s, facts, t) + if Counts(Run(read, s, facts), f, t) then 1 else 0
  {
    assert (facts + [f])[..|facts|] == facts;
  }

  lemma {:induction false} IncompleteBefore(h: seq<Item>, i: Item)
    requires !LastOf(h + [i]).IsComplete()
    ensures !LastOf(h).IsComplete()
  {
    LastOfSnoc(h, i);
  }

  lemma {:induction false} OpenStep(read: Reader, c: Story, s: State, l: Last, n: nat, i: Item)
    requires c.Open(s, l, n) && Fitting(c, i) && !Replace(l, i).IsComplete()
    ensures var s' := Ingest(read, s, FactAt(c, i));
      c.Open(s', Replace(l, i), n + if Counts(s, FactAt(c, i), c.turnId) then 1 else 0) && SameReports(s, s', c.turnId)
  {
    match i
    case Own(p) => OwnStep(read, c, s, l, n, p);
    case Other(f) => OpenAfterForeign(read, c, s, l, n, f);
  }

  lemma {:induction false} OpenRun(read: Reader, c: Story, s: State, h: seq<Item>)
    requires c.Open(s, NOTHING, 0) && WellMixed(c, h) && !LastOf(h).IsComplete()
    ensures var s' := Run(read, s, Facts(c, h));
      c.Open(s', LastOf(h), SteersCounted(read, s, Facts(c, h), c.turnId)) && SameReports(s, s', c.turnId)
    decreases |h|
  {
    if h != [] {
      var past, i := h[..|h| - 1], h[|h| - 1];
      assert h == past + [i];
      IncompleteBefore(past, i);
      OpenRun(read, c, s, past);
      LastOfSnoc(past, i);
      FactsSnoc(c, past, i);
      RunOneMore(read, s, Facts(c, past), FactAt(c, i));
      SteersSnoc(read, s, Facts(c, past), FactAt(c, i), c.turnId);
      OpenStep(read, c, Run(read, s, Facts(c, past)), LastOf(past),
               SteersCounted(read, s, Facts(c, past), c.turnId), i);
    }
  }

  /** After the report, foreign facts neither bring the turn back nor report it again. */
  lemma {:induction false} ClosedRun(read: Reader, c: Story, s: State, h: seq<Item>)
    requires c.turnId !in s.turns && forall i :: 0 <= i < |h| ==> h[i].Other? && c.Foreign(h[i].fact)
    ensures var s' := Run(read, s, Facts(c, h)); c.turnId !in s'.turns && SameReports(s, s', c.turnId)
    decreases |h|
  {
    if h != [] {
      FactsTail(c, h);
      ForeignStep(read, c, s, h[0].fact);
      ClosedRun(read, c, Ingest(read, s, h[0].fact), h[1..]);
    }
  }

  lemma {:induction false} FactsTail(c: Story, h: seq<Item>)
    requires h != []
    ensures Facts(c, h) != [] && Facts(c, h)[0] == FactAt(c, h[0]) && Facts(c, h)[1..] == Facts(c, h[1..])
  {
  }

  lemma {:induction false} FactsSplit(c: Story, before: seq<Item>, last: Part, after: seq<Item>)
    ensures Facts(c, before + [Own(last)] + after) == Facts(c, before) + ([c.FactOf(last)] + Facts(c, after))
  {
  }

  lemma {:induction false} RunSplit(read: Reader, s: State, a: seq<Fact>, f: Fact, b: seq<Fact>)
    ensures Run(read, s, a + ([f] + b)) == Run(read, Ingest(read, Run(read, s, a), f), b)
  {
    RunConcat(read, s, a, [f] + b);
    assert ([f] + b)[1..] == b;
  }

  lemma {:induction false} LastThenClosed(
    read: Reader, c: Story, s: State, l: Last, n: nat, last: Part, after: seq<Item>)
    requires c.Open(s, l, n) && Fitting(c, Own(last)) && Replace(l, Own(last)).IsComplete()
    requires forall i :: 0 <= i < |after| ==> after[i].Other? && c.Foreign(after[i].fact)
    ensures var s', l' := Run(read, Ingest(read, s, c.FactOf(last)), Facts(c, after)), Replace(l, Own(last));
      && Select(Turns(c.turnId), s'.out) == Select(Turns(c.turnId), s.out) + [TurnEvent(c.Payload(l', n))]
      && Select(Lines(c.turnId), s'.out) == Select(Lines(c.turnId), s.out) + c.LinesOf(read, l')
      && c.turnId !in s'.turns
  {
    LastStep(read, c, s, l, n, last);
    ClosedRun(read, c, Ingest(read, s, c.FactOf(last)), after);
  }

  /**
   The facts of a turn in any order, each as often as it likes, until a start response, a
   configuration and a completion have all come; foreign facts and steers of the turn
   anywhere. One turn event is emitted for the turn; its payload and accepted lines are
   those of what came last of each kind, with the steers counted; the turn is forgotten.
   */
  lemma {:induction false} TurnIsReportedOnce(
    read: Reader, c: Story, s: State, before: seq<Item>, last: Part, after: seq<Item>)
    requires c.Open(s, NOTHING, 0) && WellMixed(c, before) && Fitting(c, Own(last))
    requires !LastOf(before).IsComplete() && LastOf(before + [Own(last)]).IsComplete()
    requires forall i :: 0 <= i < |after| ==> after[i].Other? && c.Foreign(after[i].fact)
    ensures var s' := Run(read, s, Facts(c, before + [Own(last)] + after));
      var l, n := LastOf(before + [Own(last)]), SteersCounted(read, s, Facts(c, before), c.turnId);
      && Select(Turns(c.turnId), s'.out) == Select(Turns(c.turnId), s.out) + [TurnEvent(c.Payload(l, n))]
      && Select(Lines(c.turnId), s'.out) == Select(Lines(c.turnId), s.out) + c.LinesOf(read, l)
      && c.turnId !in s'.turns
  {
    FactsSplit(c, before, last, after);
    RunSplit(read, s, Facts(c, before), c.FactOf(last), Facts(c, after));
    LastOfSnoc(before, Own(last));
    OpenRun(read, c, s, before);
    LastThenClosed(read, c, Run(read, s, Facts(c, before)), LastOf(before),
                   SteersCounted(read, s, Facts(c, before), c.turnId), last, after);
  }

  /**
   The same run, when the last diff is the text of a git diff: what is reported of the
   lines is what the diff says, under the turn, its thread and its model.
   */
  lemma {:induction false} TurnReportsItsDiff(
    env: DiffParser.Env, c: Story, s: State, before: seq<Item>, last: Part, after: seq<Item>,
    files: seq<DiffParser.FileDiff>)
    requires c.Open(s, NOTHING, 0) && WellMixed(c, before) && Fitting(c, Own(last))
    requires !LastOf(before).IsComplete() && LastOf(before + [Own(last)]).IsComplete()
    requires forall i :: 0 <= i < |after| ==> after[i].Other? && c.Foreign(after[i].fact)
    requires DiffParser.WellFormed(files) && LastDiff(before + [Own(last)]) == Some(DiffParser.Render(files))
    ensures var s' := Run(ReaderOf(env), s, Facts(c, before + [Own(last)] + after));
      var model := LastConfig(before + [Own(last)]).value.model;
      var sum := DiffParser.DiffSummary(env, files);
      Select(Lines(c.turnId), s'.out) == Select(Lines(c.turnId), s.out) +
        if sum.added == 0 && sum.deleted == 0 then []
        else [AcceptedLines(c.turnId, c.threadId, model, sum.added, sum.deleted, sum.prints)]
  {
    TurnIsReportedOnce(ReaderOf(env), c, s, before, last, after);
    DiffParser.ParsingInvertsRendering(env, files);
  }

  /** Two arrival orders with the same last fact of each kind and equally many steers counted give the same report. */
  lemma {:induction false} ArrivalOrderDoesNotMatter(
    read: Reader, c: Story, s: State, h1: seq<Item>, last1: Part, h2: seq<Item>, last2: Part)
    requires c.Open(s, NOTHING, 0)
    requires WellMixed(c, h1) && Fitting(c, Own(last1)) && WellMixed(c, h2) && Fitting(c, Own(last2))
    requires !LastOf(h1).IsComplete() && !LastOf(h2).IsComplete()
    requires LastOf(h1 + [Own(last1)]) == LastOf(h2 + [Own(last2)]) && LastOf(h1 + [Own(last1)]).IsComplete()
    requires SteersCounted(read, s, Facts(c, h1), c.turnId) == SteersCounted(read, s, Facts(c, h2), c.turnId)
    ensures var s1, s2 := Run(read, s, Facts(c, h1 + [Own(last1)])), Run(read, s, Facts(c, h2 + [Own(last2)]));
      SameReports(s1, s2, c.turnId) && c.turnId !in s1.turns && c.turnId !in s2.turns
  {
    TurnIsReportedOnce(read, c, s, h1, last1, []);
    TurnIsReportedOnce(read, c, s, h2, last2, []);
    assert h1 + [Own(last1)] + [] == h1 + [Own(last1)];
    assert h2 + [Own(last2)] + [] == h2 + [Own(last2)];
  }

  // ----- agreement is needed

  /** Start response and configuration in one order or the other, then the completion. */
  function ThreeFacts(c: Story, config: Config, completed: Completed, startLast: bool): seq<Fact> {
    var f, g, e := c.FactOf(Answered), c.FactOf(Settled(config)), c.FactOf(Ended(completed));
    if startLast then [g, f, e] else [f, g, e]
  }

  lemma {:induction false} RunThree(read: Reader, s: State, a: Fact, b: Fact, d: Fact)
    ensures Run(read, s, [a, b, d]) == Ingest(read, Ingest(read, Ingest(read, s, a), b), d)
  {
    var s1 := Ingest(read, s, a);
    var s2 := Ingest(read, s1, b);
    assert [a, b, d][1..] == [b, d];
    assert [b, d][1..] == [d];
    assert [d][1..] == [];
    assert Run(read, s2, [d]) == Ingest(read, s2, d);
  }

  lemma {:induction false} TwoRecorded(read: Reader, c: Story, s: State, config: Config, startLast: bool)
    requires config.turnId == c.turnId && c.turnId !in s.turns && c.Asked(s, false)
    ensures var f, g := c.FactOf(Answered), c.FactOf(Settled(config));
      var s2 := if startLast then Ingest(read, Ingest(read, s, g), f) else Ingest(read, Ingest(read, s, f), g);
      && s2.connections == s.connections && s2.threads == s.threads && c.turnId in s2.turns
      && s2.turns[c.turnId] ==
           NEW_TURN.(connection := Some(c.key.connection), config := Some(config),
                     threadId := Some(if startLast then c.threadId else config.threadId),
                     images := Some(if startLast then c.images else config.images))
      && Select(Turns(c.turnId), s2.out) == Select(Turns(c.turnId), s.out)
  {
    var f, g := c.FactOf(Answered), c.FactOf(Settled(config));
    if startLast {
      TurnEventsOfStep(read, s, g, c.turnId);
      TurnEventsOfStep(read, Ingest(read, s, g), f, c.turnId);
    } else {
      TurnEventsOfStep(read, s, f, c.turnId);
      TurnEventsOfStep(read, Ingest(read, s, f), g, c.turnId);
    }
  }

  lemma {:induction false} FinishReports(read: Reader, c: Story, s: State, completed: Completed)
    requires c.turnId in s.turns && Ready(s, s.turns[c.turnId].(completed := Some(completed)))
    ensures var out := Select(Turns(c.turnId), Ingest(read, s, c.FactOf(Ended(completed))).out);
      out == Select(Turns(c.turnId), s.out)
             + [TurnEvent(ParamsOf(s, c.turnId, s.turns[c.turnId].(completed := Some(completed))))]
  {
    TurnEventsOfStep(read, s, c.FactOf(Ended(completed)), c.turnId);
  }

  /** What each order reports of the thread and the images: the last of request and configuration wins. */
  lemma {:induction false} OrderReports(
    read: Reader, c: Story, s: State, config: Config, completed: Completed, startLast: bool)
    requires config.turnId == c.turnId && c.turnId !in s.turns && c.Placed(s) && c.Asked(s, false)
    requires MetaOf(s, config.threadId).Some?
    ensures var out := Select(Turns(c.turnId), Run(read, s, ThreeFacts(c, config, completed, startLast)).out);
      var th := if startLast then c.threadId else config.threadId;
      var images := if startLast then c.images else config.images;
      var params := TurnParams(c.turnId, th, c.client, MetaOf(s, th).value, config, images, completed, 0, None, None);
      out == Select(Turns(c.turnId), s.out) + [TurnEvent(params)]
  {
    TwoRecorded(read, c, s, config, startLast);
    var f, g, e := c.FactOf(Answered), c.FactOf(Settled(config)), c.FactOf(Ended(completed));
    if startLast {
      RunThree(read, s, g, f, e);
      FinishReports(read, c, Ingest(read, Ingest(read, s, g), f), completed);
    } else {
      RunThree(read, s, f, g, e);
      FinishReports(read, c, Ingest(read, Ingest(read, s, f), g), completed);
    }
  }

  /** The order is invisible exactly when request and configuration agree on the thread and the images. */
  lemma {:induction false} OrderIsInvisibleExactly(
    read: Reader, c: Story, s: State, config: Config, completed: Completed)
    requires config.turnId == c.turnId && c.turnId !in s.turns && c.Placed(s) && c.Asked(s, false)
    requires MetaOf(s, config.threadId).Some?
    ensures var s1 := Run(read, s, ThreeFacts(c, config, completed, false));
      var s2 := Run(read, s, ThreeFacts(c, config, completed, true));
      Select(Turns(c.turnId), s1.out) == Select(Turns(c.turnId), s2.out) <==> c.Agrees(config)
  {
    OrderReports(read, c, s, config, completed, false);
    OrderReports(read, c, s, config, completed, true);
    var n := |Select(Turns(c.turnId), s.out)|;
    var a := Select(Turns(c.turnId), Run(read, s, ThreeFacts(c, config, completed, false)).out)[n].params;
    var b := Select(Turns(c.turnId), Run(read, s, ThreeFacts(c, config, completed, true)).out)[n].params;
    assert a == b <==> c.Agrees(config);
  }
}
