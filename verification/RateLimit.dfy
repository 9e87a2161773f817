/**
 The fixed-window rate limiter with lazy cleanup (`server/src/rateLimit.ts`).
 Times are milliseconds; the window and the limit are positive numbers.
 */
module RateLimit {

  datatype Config = Config(windowMs: real, max: real) {
    predicate Valid() { windowMs > 0.0 && max > 0.0 }
  }

  datatype Bucket = Bucket(windowStart: real, count: real)

  type Buckets = map<string, Bucket>

  datatype Request = Request(key: string, method_: string, url: string, healthz: bool, now: real)

  datatype Reply = Skipped | Admitted | Rejected(retryAfter: int)

  const MAX_BUCKETS := 10_000

  predicate Contains(s: string, part: string) {
    exists i {:trigger s[i..]} :: 0 <= i <= |s| && part <= s[i..]
  }

  predicate OnlyReads(r: Request) {
    r.method_ == "GET" || r.method_ == "HEAD" || r.method_ == "OPTIONS"
  }

  /** `requestWeight`. */
  function Weight(r: Request): (w: real)
    ensures w == 1.0 || w == 3.0 || w == 10.0
    ensures w == 1.0 <==> r.method_ in {"GET", "HEAD", "OPTIONS"}
    ensures w == 10.0 <==> w != 1.0 && exists i {:trigger r.url[i..]} :: 0 <= i <= |r.url| && "/artifacts" <= r.url[i..]
  {
    if OnlyReads(r) then 1.0
    else if Contains(r.url, "/artifacts") then 10.0
    else 3.0
  }

  function Ceil(x: real): (n: int)
    ensures x <= n as real < x + 1.0
  {
    -((-x).Floor)
  }

  // ----- one request

  predicate Expired(cfg: Config, b: Bucket, now: real) {
    now - b.windowStart >= cfg.windowMs
  }

  function RetryAfter(cfg: Config, b: Bucket, now: real): int {
    Ceil((cfg.windowMs - (now - b.windowStart)) / 1000.0)
  }

  predicate StartsWindow(cfg: Config, bs: Buckets, r: Request) {
    r.key !in bs || Expired(cfg, bs[r.key], r.now)
  }

  /** The bucket of the request's key after the request. Rejected requests count too. */
  function NextBucket(cfg: Config, bs: Buckets, r: Request): Bucket {
    if StartsWindow(cfg, bs, r) then Bucket(r.now, Weight(r))
    else Bucket(bs[r.key].windowStart, bs[r.key].count + Weight(r))
  }

  function ReplyTo(cfg: Config, bs: Buckets, r: Request): Reply {
    if r.healthz then Skipped
    else if StartsWindow(cfg, bs, r) then Admitted
    else if NextBucket(cfg, bs, r).count > cfg.max then Rejected(RetryAfter(cfg, bs[r.key], r.now))
    else Admitted
  }

  /** The limiter that never deletes a bucket. */
  function Remember(cfg: Config, bs: Buckets, r: Request): Buckets {
    if r.healthz then bs else bs[r.key := NextBucket(cfg, bs, r)]
  }

  function Live(cfg: Config, bs: Buckets, now: real): Buckets {
    map k | k in bs && !Expired(cfg, bs[k], now) :: bs[k]
  }

  datatype State = State(buckets: Buckets, lastCleanupAt: real)

  const START := State(map[], 0.0)

  function Cleanup(cfg: Config, s: State, now: real, force: bool): State {
    if !force && now - s.lastCleanupAt < cfg.windowMs then s
    else State(Live(cfg, s.buckets, now), now)
  }

  /** One request to the limiter as it is: cleanup first, and again when the map is large. */
  function Handle(cfg: Config, s: State, r: Request): State {
    if r.healthz then s
    else
      var s1 := Cleanup(cfg, s, r.now, false);
      var s2 := s1.(buckets := Remember(cfg, s1.buckets, r));
      if !StartsWindow(cfg, s1.buckets, r) && ReplyTo(cfg, s1.buckets, r).Admitted? && |s2.buckets| > MAX_BUCKETS
      then Cleanup(cfg, s2, r.now, true)
      else s2
  }

  function HandleReply(cfg: Config, s: State, r: Request): Reply {
    if r.healthz then Skipped else ReplyTo(cfg, Cleanup(cfg, s, r.now, false).buckets, r)
  }

  /** The module-level state of the limiter and the hook that updates it. */
  class Limiter {
    const cfg: Config
    var buckets: Buckets
    var lastCleanupAt: real

    function View(): State
      reads this
    {
      State(buckets, lastCleanupAt)
    }

    constructor (cfg: Config)
      ensures this.cfg == cfg && View() == START
    {
      this.cfg := cfg;
      buckets, lastCleanupAt := map[], 0.0;
    }

    method CleanupExpiredBuckets(now: real, force: bool)
      modifies this
      ensures View() == Cleanup(cfg, old(View()), now, force)
    {
      if !force && now - lastCleanupAt < cfg.windowMs {
        return;
      }
      lastCleanupAt := now;
      var left := buckets.Keys;
      while left != {}
        invariant lastCleanupAt == now
        invariant left <= old(buckets).Keys
        invariant buckets ==
          map k | k in old(buckets) && (k in left || !Expired(cfg, old(buckets)[k], now)) :: old(buckets)[k]
      {
        var k :| k in left;
        left := left - {k};
        if Expired(cfg, buckets[k], now) {
          buckets := buckets - {k};
        }
      }
      assert buckets == Live(cfg, old(buckets), now);
    }

    method OnRequest(r: Request) returns (reply: Reply)
      modifies this
      ensures View() == Handle(cfg, old(View()), r)
      ensures reply == HandleReply(cfg, old(View()), r)
    {
      if r.healthz {
        return Skipped;
      }
      CleanupExpiredBuckets(r.now, false);
      var weight := Weight(r);
      if r.key !in buckets || r.now - buckets[r.key].windowStart >= cfg.windowMs {
        buckets := buckets[r.key := Bucket(r.now, weight)];
        return Admitted;
      }
      var start := buckets[r.key].windowStart;
      buckets := buckets[r.key := Bucket(start, buckets[r.key].count + weight)];
      if buckets[r.key].count > cfg.max {
        return Rejected(Ceil((cfg.windowMs - (r.now - start)) / 1000.0));
      }
      if |buckets| > MAX_BUCKETS {
        CleanupExpiredBuckets(r.now, true);
      }
      return Admitted;
    }
  }

  /** Once the map is large, an admitted request in an open window leaves no expired bucket behind. */
  lemma {:induction false} LargeMapsAreSwept(cfg: Config, s: State, r: Request)
    requires !r.healthz && HandleReply(cfg, s, r) == Admitted && |Handle(cfg, s, r).buckets| > 10_000
    requires r.key in s.buckets && r.now - s.buckets[r.key].windowStart < cfg.windowMs
    ensures forall k :: k in Handle(cfg, s, r).buckets ==>
      r.now - Handle(cfg, s, r).buckets[k].windowStart < cfg.windowMs
  {
    var s1 := Cleanup(cfg, s, r.now, false);
    assert r.key in s1.buckets && s1.buckets[r.key] == s.buckets[r.key];
  }

  // ----- whole histories

  /** The clock never goes back, starting from `t`. */
  predicate ClockRuns(t: real, h: seq<Request>)
    decreases |h|
  {
    h == [] || (t <= h[0].now && ClockRuns(h[0].now, h[1..]))
  }

  function Replies(cfg: Config, s: State, h: seq<Request>): (rs: seq<Reply>)
    ensures |rs| == |h|
    decreases |h|
  {
    if h == [] then [] else [HandleReply(cfg, s, h[0])] + Replies(cfg, Handle(cfg, s, h[0]), h[1..])
  }

  function RememberingReplies(cfg: Config, bs: Buckets, h: seq<Request>): (rs: seq<Reply>)
    ensures |rs| == |h|
    decreases |h|
  {
    if h == [] then [] else [ReplyTo(cfg, bs, h[0])] + RememberingReplies(cfg, Remember(cfg, bs, h[0]), h[1..])
  }

  /** `bs` is `all` without some buckets that have expired by `now`. */
  ghost predicate Agrees(cfg: Config, bs: Buckets, all: Buckets, now: real) {
    && (forall k :: k in bs ==> k in all && all[k] == bs[k])
    && (forall k :: k in all && k !in bs ==> Expired(cfg, all[k], now))
  }

  lemma CleanupAgrees(cfg: Config, s: State, all: Buckets, now: real, force: bool)
    requires Agrees(cfg, s.buckets, all, now)
    ensures Agrees(cfg, Cleanup(cfg, s, now, force).buckets, all, now)
  {
  }

  lemma RememberAgrees(cfg: Config, bs: Buckets, all: Buckets, r: Request)
    requires Agrees(cfg, bs, all, r.now)
    ensures ReplyTo(cfg, bs, r) == ReplyTo(cfg, all, r)
    ensures Agrees(cfg, Remember(cfg, bs, r), Remember(cfg, all, r), r.now)
  {
    assert StartsWindow(cfg, bs, r) == StartsWindow(cfg, all, r);
  }

  lemma HandleAgrees(cfg: Config, s: State, all: Buckets, t: real, r: Request)
    requires Agrees(cfg, s.buckets, all, t) && t <= r.now
    ensures HandleReply(cfg, s, r) == ReplyTo(cfg, all, r)
    ensures Agrees(cfg, Handle(cfg, s, r).buckets, Remember(cfg, all, r), r.now)
  {
    if !r.healthz {
      var s1 := Cleanup(cfg, s, r.now, false);
      assert Agrees(cfg, s.buckets, all, r.now);
      CleanupAgrees(cfg, s, all, r.now, false);
      RememberAgrees(cfg, s1.buckets, all, r);
      var s2 := s1.(buckets := Remember(cfg, s1.buckets, r));
      CleanupAgrees(cfg, s2, Remember(cfg, all, r), r.now, true);
    }
  }

  /** Deleting expired buckets is never noticed while the clock runs forward. */
  lemma {:induction false} CleanupIsInvisible(cfg: Config, s: State, all: Buckets, t: real, h: seq<Request>)
    requires Agrees(cfg, s.buckets, all, t) && ClockRuns(t, h)
    ensures Replies(cfg, s, h) == RememberingReplies(cfg, all, h)
    decreases |h|
  {
    if h != [] {
      HandleAgrees(cfg, s, all, t, h[0]);
      CleanupIsInvisible(cfg, Handle(cfg, s, h[0]), Remember(cfg, all, h[0]), h[0].now, h[1..]);
    }
  }

  /** From the empty limiter: for every history with a forward clock both limiters reply alike. */
  lemma CleanupIsInvisibleFromStart(cfg: Config, h: seq<Request>)
    requires h != [] ==> ClockRuns(h[0].now, h)
    ensures Replies(cfg, START, h) == RememberingReplies(cfg, map[], h)
  {
    if h != [] {
      CleanupIsInvisible(cfg, START, map[], h[0].now, h);
    }
  }

  // ----- who is rejected

  /** The request counts against `key`. */
  predicate IsCharged(r: Request, key: string) {
    !r.healthz && r.key == key
  }

  /** No request charged to `key` between the two positions. */
  predicate NoneCharged(h: seq<Request>, from: nat, to: nat, key: string)
    requires to <= |h|
  {
    forall i :: from <= i < to ==> !IsCharged(h[i], key)
  }

  /** Request `w` opened a window of `key`, and all that were charged to it up to `n` came before it was over. */
  ghost predicate IsOpenAt(cfg: Config, h: seq<Request>, key: string, w: nat, n: nat)
    requires n <= |h|
    decreases w
  {
    && w < n && IsCharged(h[w], key)
    && (forall i :: w < i < n && IsCharged(h[i], key) ==> h[i].now < h[w].now + cfg.windowMs)
    && (|| NoneCharged(h, 0, w, key)
        || exists v: nat :: v < w && IsOpenAt(cfg, h, key, v, w) && h[w].now >= h[v].now + cfg.windowMs)
  }

  /** The weight charged to `key` by the requests from `w` up to `n`. */
  function Charged(h: seq<Request>, key: string, w: nat, n: nat): real
    requires w <= n <= |h|
    decreases n
  {
    if n == w then 0.0 else Charged(h, key, w, n - 1) + if IsCharged(h[n - 1], key) then Weight(h[n - 1]) else 0.0
  }

  /** What the bucket of `key` says after the first `n` requests: the open window and the weight charged to it. */
  ghost predicate SaysWindow(cfg: Config, h: seq<Request>, key: string, n: nat, bs: Buckets, w: nat)
    requires n <= |h|
  {
    && IsOpenAt(cfg, h, key, w, n) && key in bs && bs[key] == Bucket(h[w].now, Charged(h, key, w, n))
  }

  lemma {:induction false} RememberOneMore(cfg: Config, h: seq<Request>, n: nat)
    requires n < |h|
    ensures RememberAll(cfg, map[], h[..n + 1]) == Remember(cfg, RememberAll(cfg, map[], h[..n]), h[n])
  {
    assert h[..n + 1] == h[..n] + [h[n]];
    RepliesAppend(cfg, map[], h[..n], [h[n]]);
    assert [h[n]][1..] == [];
    var bs := RememberAll(cfg, map[], h[..n]);
    assert RememberAll(cfg, bs, [h[n]]) == RememberAll(cfg, Remember(cfg, bs, h[n]), []);
  }

  lemma {:induction false} StillOpenAt(cfg: Config, h: seq<Request>, key: string, w: nat, n: nat)
    requires n < |h| && IsOpenAt(cfg, h, key, w, n)
    requires IsCharged(h[n], key) ==> h[n].now < h[w].now + cfg.windowMs
    ensures IsOpenAt(cfg, h, key, w, n + 1)
  {
  }

  /** One more request: another window, or more charged to the same one. */
  lemma {:induction false} WindowOneMore(cfg: Config, h: seq<Request>, key: string, n: nat, bs: Buckets, w: nat)
    returns (w': nat)
    requires cfg.Valid() && n < |h|
    requires if key in bs then SaysWindow(cfg, h, key, n, bs, w) else NoneCharged(h, 0, n, key)
    ensures var bs' := Remember(cfg, bs, h[n]);
      if key in bs' then SaysWindow(cfg, h, key, n + 1, bs', w') else NoneCharged(h, 0, n + 1, key)
  {
    w' := w;
    if IsCharged(h[n], key) && StartsWindow(cfg, bs, h[n]) {
      w' := n;
      assert Charged(h, key, n, n) == 0.0;
      if key in bs {
        assert IsOpenAt(cfg, h, key, w, n) && h[n].now >= h[w].now + cfg.windowMs;
      }
      assert IsOpenAt(cfg, h, key, n, n + 1);
    } else if key in bs {
      StillOpenAt(cfg, h, key, w, n);
    }
  }

  lemma {:induction false} WindowOf(cfg: Config, h: seq<Request>, key: string, n: nat) returns (w: nat)
    requires cfg.Valid() && n <= |h|
    ensures var bs := RememberAll(cfg, map[], h[..n]);
      if key in bs then SaysWindow(cfg, h, key, n, bs, w) else NoneCharged(h, 0, n, key)
    decreases n
  {
    w := 0;
    if n > 0 {
      var last := n - 1;
      var before := WindowOf(cfg, h, key, last);
      RememberOneMore(cfg, h, last);
      w := WindowOneMore(cfg, h, key, last, RememberAll(cfg, map[], h[..last]), before);
    }
  }

  lemma {:induction false} ReplyAt(cfg: Config, h: seq<Request>, n: nat)
    requires n < |h|
    ensures RememberingReplies(cfg, map[], h)[n] == ReplyTo(cfg, RememberAll(cfg, map[], h[..n]), h[n])
  {
    assert h == h[..n] + h[n..];
    RepliesAppend(cfg, map[], h[..n], h[n..]);
  }

  /**
   For every history with a forward clock: a request is rejected exactly when it falls into
   a window opened before it and the weights charged to that window, its own included,
   exceed the maximum. The window is found from the history alone.
   */
  lemma {:induction false} RejectedExactly(cfg: Config, h: seq<Request>, n: nat) returns (w: nat)
    requires cfg.Valid() && n < |h| && ClockRuns(h[0].now, h)
    ensures Replies(cfg, START, h)[n].Skipped? <==> h[n].healthz
    ensures !h[n].healthz ==> IsOpenAt(cfg, h, h[n].key, w, n + 1)
    ensures Replies(cfg, START, h)[n].Rejected? <==>
      !h[n].healthz && w < n && Charged(h, h[n].key, w, n + 1) > cfg.max
  {
    w := n;
    var key := h[n].key;
    CleanupIsInvisibleFromStart(cfg, h);
    ReplyAt(cfg, h, n);
    var bs := RememberAll(cfg, map[], h[..n]);
    if !h[n].healthz {
      var before := WindowOf(cfg, h, key, n);
      if StartsWindow(cfg, bs, h[n]) {
        assert key in bs ==> IsOpenAt(cfg, h, key, before, n);
      } else {
        w := before;
        StillOpenAt(cfg, h, key, w, n);
      }
    }
  }

  // ----- how much one key gets in one interval

  function Cap(cfg: Config): (c: real)
    ensures c >= cfg.max && c >= 10.0
  {
    if cfg.max > 10.0 then cfg.max else 10.0
  }

  /** What a request of `key` adds to the weight admitted in `[from, from + windowMs)`. */
  function Gain(cfg: Config, reply: Reply, r: Request, key: string, from: real): real {
    if reply.Admitted? && r.key == key && from <= r.now < from + cfg.windowMs then Weight(r) else 0.0
  }

  /** The weight admitted for `key` in `[from, from + windowMs)` over a history and its replies. */
  function AdmittedWeight(cfg: Config, rs: seq<Reply>, h: seq<Request>, key: string, from: real): real
    requires |rs| == |h|
    decreases |h|
  {
    if h == [] then 0.0
    else Gain(cfg, rs[0], h[0], key, from) + AdmittedWeight(cfg, rs[1..], h[1..], key, from)
  }

  lemma {:induction false} NothingLate(cfg: Config, rs: seq<Reply>, h: seq<Request>, key: string, from: real, t: real)
    requires |rs| == |h| && ClockRuns(t, h) && t >= from + cfg.windowMs
    ensures AdmittedWeight(cfg, rs, h, key, from) == 0.0
    decreases |h|
  {
    if h != [] {
      NothingLate(cfg, rs[1..], h[1..], key, from, h[0].now);
    }
  }

  /** The bucket of `key` is open since before `t`, and `used` of its count was admitted. */
  ghost predicate Accounts(cfg: Config, bs: Buckets, key: string, t: real, used: real) {
    && 0.0 <= used <= Cap(cfg)
    && (key in bs ==> bs[key].windowStart <= t && used <= bs[key].count)
    && (key !in bs ==> used == 0.0)
  }

  /** What may still be admitted in the interval, given the open window. */
  function Allowance(cfg: Config, bs: Buckets, key: string, from: real, t: real, used: real): real {
    if key in bs && bs[key].windowStart >= from then Cap(cfg) - used
    else if t >= from then 2.0 * Cap(cfg) - used
    else 2.0 * Cap(cfg)
  }

  /** The admitted part of the window after a request. */
  function Used(cfg: Config, bs: Buckets, r: Request, key: string, used: real): real {
    if r.healthz || r.key != key then used
    else if StartsWindow(cfg, bs, r) then Weight(r)
    else if ReplyTo(cfg, bs, r).Admitted? then used + Weight(r)
    else used
  }

  lemma {:induction false} StepAccounts(
    cfg: Config, bs: Buckets, key: string, from: real, t: real, used: real, r: Request)
    requires cfg.Valid() && Accounts(cfg, bs, key, t, used) && t <= r.now < from + cfg.windowMs
    ensures Accounts(cfg, Remember(cfg, bs, r), key, r.now, Used(cfg, bs, r, key, used))
    ensures Gain(cfg, ReplyTo(cfg, bs, r), r, key, from)
            + Allowance(cfg, Remember(cfg, bs, r), key, from, r.now, Used(cfg, bs, r, key, used))
            <= Allowance(cfg, bs, key, from, t, used)
  {
  }

  lemma {:induction false} BoundFrom(
    cfg: Config, bs: Buckets, key: string, from: real, t: real, used: real, h: seq<Request>)
    requires cfg.Valid() && Accounts(cfg, bs, key, t, used) && ClockRuns(t, h)
    ensures AdmittedWeight(cfg, RememberingReplies(cfg, bs, h), h, key, from) <= Allowance(cfg, bs, key, from, t, used)
    decreases |h|
  {
    if h != [] {
      var rs := RememberingReplies(cfg, bs, h);
      var r := h[0];
      assert rs[1..] == RememberingReplies(cfg, Remember(cfg, bs, r), h[1..]);
      if r.now >= from + cfg.windowMs {
        NothingLate(cfg, rs[1..], h[1..], key, from, r.now);
      } else {
        StepAccounts(cfg, bs, key, from, t, used, r);
        BoundFrom(cfg, Remember(cfg, bs, r), key, from, r.now, Used(cfg, bs, r, key, used), h[1..]);
      }
    }
  }

  /** In any half-open interval of one window length a key is admitted at most twice the cap. */
  lemma {:induction false} RateBound(cfg: Config, h: seq<Request>, key: string, from: real)
    requires cfg.Valid() && (h != [] ==> ClockRuns(h[0].now, h))
    ensures AdmittedWeight(cfg, Replies(cfg, START, h), h, key, from) <= 2.0 * Cap(cfg)
  {
    CleanupIsInvisibleFromStart(cfg, h);
    if h != [] {
      BoundFrom(cfg, map[], key, from, h[0].now, 0.0, h);
    }
  }

  // ----- Retry-After

  lemma {:induction false} OthersLeaveBucket(cfg: Config, bs: Buckets, key: string, h: seq<Request>)
    requires forall r :: r in h ==> r.healthz || r.key != key
    ensures RememberAll(cfg, bs, h).Keys >= bs.Keys
    ensures key in bs ==> RememberAll(cfg, bs, h)[key] == bs[key]
    decreases |h|
  {
    if h != [] {
      assert h[0] in h;
      OthersLeaveBucket(cfg, Remember(cfg, bs, h[0]), key, h[1..]);
    }
  }

  function RememberAll(cfg: Config, bs: Buckets, h: seq<Request>): Buckets
    decreases |h|
  {
    if h == [] then bs else RememberAll(cfg, Remember(cfg, bs, h[0]), h[1..])
  }

  lemma {:induction false} RepliesAppend(cfg: Config, bs: Buckets, a: seq<Request>, b: seq<Request>)
    ensures RememberingReplies(cfg, bs, a + b) ==
      RememberingReplies(cfg, bs, a) + RememberingReplies(cfg, RememberAll(cfg, bs, a), b)
    ensures RememberAll(cfg, bs, a + b) == RememberAll(cfg, RememberAll(cfg, bs, a), b)
    decreases |a|
  {
    if a == [] {
      assert a + b == b;
    } else {
      assert (a + b)[1..] == a[1..] + b;
      RepliesAppend(cfg, Remember(cfg, bs, a[0]), a[1..], b);
    }
  }

  /**
   After a rejection, a client that waits the advertised seconds is admitted when
   nothing else used its key meanwhile; one second less would not reach a new window.
   */
  lemma {:induction false} RetryAfterSuffices(
    cfg: Config, past: seq<Request>, r: Request, mid: seq<Request>, again: Request)
    requires cfg.Valid() && !r.healthz && !again.healthz && again.key == r.key
    requires ClockRuns((past + [r] + mid + [again])[0].now, past + [r] + mid + [again])
    requires forall m :: m in mid ==> m.healthz || m.key != r.key
    requires Replies(cfg, START, past + [r] + mid + [again])[|past|].Rejected?
    requires again.now >= r.now + 1000.0 * Replies(cfg, START, past + [r] + mid + [again])[|past|].retryAfter as real
    ensures Replies(cfg, START, past + [r] + mid + [again])[|past| + 1 + |mid|] == Admitted
    ensures Replies(cfg, START, past + [r] + mid + [again])[|past|].retryAfter >= 1
  {
    var h := past + [r] + mid + [again];
    CleanupIsInvisibleFromStart(cfg, h);
    var bs := RememberAll(cfg, map[], past);
    var bs1 := Remember(cfg, bs, r);
    assert h == past + ([r] + (mid + [again]));
    RepliesAppend(cfg, map[], past, [r] + (mid + [again]));
    assert ([r] + (mid + [again]))[1..] == mid + [again];
    RepliesAppend(cfg, bs1, mid, [again]);
    OthersLeaveBucket(cfg, bs1, r.key, mid);
    assert Replies(cfg, START, h)[|past|] == ReplyTo(cfg, bs, r);
    assert Replies(cfg, START, h)[|past| + 1 + |mid|] == ReplyTo(cfg, RememberAll(cfg, bs1, mid), again);
    WaitingReachesNextWindow(cfg, bs[r.key], r.now, again.now);
  }

  lemma {:induction false} WaitingReachesNextWindow(cfg: Config, b: Bucket, now: real, later: real)
    requires !Expired(cfg, b, now)
    ensures RetryAfter(cfg, b, now) >= 1
    ensures later >= now + 1000.0 * RetryAfter(cfg, b, now) as real ==> Expired(cfg, b, later)
    ensures later == now + 1000.0 * (RetryAfter(cfg, b, now) - 1) as real ==> !Expired(cfg, b, later)
  {
    var left := cfg.windowMs - (now - b.windowStart);
    var n := RetryAfter(cfg, b, now);
    assert left / 1000.0 <= n as real < left / 1000.0 + 1.0;
    assert (n - 1) as real == n as real - 1.0;
  }

  // ----- clocks that go back

  /**
   The request finds its bucket kept, or both limiters start a window: no bucket that
   still counts for it was deleted.
   */
  predicate MissesNothing(cfg: Config, s: State, all: Buckets, r: Request) {
    || r.healthz
    || r.key in Cleanup(cfg, s, r.now, false).buckets
    || StartsWindow(cfg, all, r)
  }

  ghost predicate NeverMisses(cfg: Config, s: State, all: Buckets, h: seq<Request>)
    decreases |h|
  {
    h != [] ==>
      MissesNothing(cfg, s, all, h[0]) && NeverMisses(cfg, Handle(cfg, s, h[0]), Remember(cfg, all, h[0]), h[1..])
  }

  ghost predicate PartOf(bs: Buckets, all: Buckets) {
    forall k :: k in bs ==> k in all && all[k] == bs[k]
  }

  lemma {:induction false} CleanupKeepsPart(cfg: Config, s: State, all: Buckets, now: real, force: bool)
    requires PartOf(s.buckets, all)
    ensures PartOf(Cleanup(cfg, s, now, force).buckets, all)
  {
  }

  lemma {:induction false} RequestKeepsPart(cfg: Config, s: State, all: Buckets, r: Request)
    requires PartOf(s.buckets, all) && MissesNothing(cfg, s, all, r)
    ensures HandleReply(cfg, s, r) == ReplyTo(cfg, all, r)
    ensures PartOf(Handle(cfg, s, r).buckets, Remember(cfg, all, r))
  {
    if !r.healthz {
      var s1 := Cleanup(cfg, s, r.now, false);
      CleanupKeepsPart(cfg, s, all, r.now, false);
      assert NextBucket(cfg, s1.buckets, r) == NextBucket(cfg, all, r);
      CleanupKeepsPart(cfg, s1.(buckets := Remember(cfg, s1.buckets, r)), Remember(cfg, all, r), r.now, true);
    }
  }

  /** Whatever the clock does, cleanup is not noticed while no request misses a bucket that still counts. */
  lemma {:induction false} UnmissedCleanupIsInvisible(cfg: Config, s: State, all: Buckets, h: seq<Request>)
    requires PartOf(s.buckets, all) && NeverMisses(cfg, s, all, h)
    ensures Replies(cfg, s, h) == RememberingReplies(cfg, all, h)
    decreases |h|
  {
    if h != [] {
      RequestKeepsPart(cfg, s, all, h[0]);
      UnmissedCleanupIsInvisible(cfg, Handle(cfg, s, h[0]), Remember(cfg, all, h[0]), h[1..]);
    }
  }

  // ----- exactly when two limiters cannot be told apart

  predicate IsLive(cfg: Config, bs: Buckets, key: string, now: real) {
    key in bs && !Expired(cfg, bs[key], now)
  }

  /** Both buckets reject every further request, or they hold the same count. */
  predicate CountsAlike(cfg: Config, a: real, b: real) {
    a == b || (a > cfg.max - 1.0 && b > cfg.max - 1.0)
  }

  predicate KeyAlike(cfg: Config, a: Buckets, b: Buckets, key: string, now: real) {
    && (IsLive(cfg, a, key, now) <==> IsLive(cfg, b, key, now))
    && (IsLive(cfg, a, key, now) ==>
          a[key].windowStart == b[key].windowStart && CountsAlike(cfg, a[key].count, b[key].count))
  }

  /** At `now` the same windows are open, with counts alike. */
  ghost predicate Alike(cfg: Config, a: Buckets, b: Buckets, now: real) {
    forall k :: KeyAlike(cfg, a, b, k, now)
  }

  /** Counts are sums of weights: whole and at least one. */
  ghost predicate Whole(bs: Buckets) {
    forall k :: k in bs ==> bs[k].count >= 1.0 && bs[k].count == bs[k].count.Floor as real
  }

  lemma {:induction false} KeyAlikeLater(cfg: Config, a: Buckets, b: Buckets, key: string, t: real, now: real)
    requires KeyAlike(cfg, a, b, key, t) && t <= now
    ensures KeyAlike(cfg, a, b, key, now)
  {
  }

  lemma {:induction false} RequestKeepsAlike(cfg: Config, a: Buckets, b: Buckets, t: real, r: Request)
    requires cfg.Valid() && Alike(cfg, a, b, t) && t <= r.now
    ensures ReplyTo(cfg, a, r) == ReplyTo(cfg, b, r)
    ensures Alike(cfg, Remember(cfg, a, r), Remember(cfg, b, r), r.now)
  {
    assert KeyAlike(cfg, a, b, r.key, t);
    KeyAlikeLater(cfg, a, b, r.key, t, r.now);
    forall k
      ensures KeyAlike(cfg, Remember(cfg, a, r), Remember(cfg, b, r), k, r.now)
    {
      assert KeyAlike(cfg, a, b, k, t);
      KeyAlikeLater(cfg, a, b, k, t, r.now);
    }
  }

  lemma {:induction false} AlikeReplyAlike(cfg: Config, a: Buckets, b: Buckets, t: real, g: seq<Request>)
    requires cfg.Valid() && Alike(cfg, a, b, t) && ClockRuns(t, g)
    ensures RememberingReplies(cfg, a, g) == RememberingReplies(cfg, b, g)
    decreases |g|
  {
    if g != [] {
      RequestKeepsAlike(cfg, a, b, t, g[0]);
      AlikeReplyAlike(cfg, Remember(cfg, a, g[0]), Remember(cfg, b, g[0]), g[0].now, g[1..]);
    }
  }

  function Get(key: string, now: real): Request {
    Request(key, "GET", "", false, now)
  }

  /** `n` GET requests of one key at one moment. */
  function Burst(key: string, now: real, n: nat): seq<Request> {
    if n == 0 then [] else [Get(key, now)] + Burst(key, now, n - 1)
  }

  lemma {:induction false} BurstRuns(key: string, t: real, now: real, n: nat)
    requires t <= now
    ensures |Burst(key, now, n)| == n && ClockRuns(t, Burst(key, now, n))
    decreases n
  {
    if n > 0 {
      BurstRuns(key, now, now, n - 1);
      assert Burst(key, now, n)[1..] == Burst(key, now, n - 1);
    }
  }

  /** The last reply to a burst in an open window. */
  lemma {:induction false} BurstReply(cfg: Config, bs: Buckets, key: string, now: real, n: nat)
    requires IsLive(cfg, bs, key, now) && n > 0
    ensures |Burst(key, now, n)| == n
    ensures RememberingReplies(cfg, bs, Burst(key, now, n))[n - 1].Rejected? <==> bs[key].count + n as real > cfg.max
  {
    var r := Get(key, now);
    BurstRuns(key, now, now, n);
    assert Burst(key, now, n)[1..] == Burst(key, now, n - 1);
    if n > 1 {
      BurstReply(cfg, Remember(cfg, bs, r), key, now, n - 1);
      assert (n - 1) as real + 1.0 == n as real;
    }
  }

  /** The last reply to a burst that opens its window: the first request is always admitted. */
  lemma {:induction false} FreshBurstReply(cfg: Config, bs: Buckets, key: string, now: real, n: nat)
    requires cfg.Valid() && !IsLive(cfg, bs, key, now) && n > 0
    ensures |Burst(key, now, n)| == n
    ensures RememberingReplies(cfg, bs, Burst(key, now, n))[n - 1].Rejected? <==> n > 1 && n as real > cfg.max
  {
    var r := Get(key, now);
    BurstRuns(key, now, now, n);
    assert Burst(key, now, n)[1..] == Burst(key, now, n - 1);
    if n > 1 {
      BurstReply(cfg, Remember(cfg, bs, r), key, now, n - 1);
      assert (n - 1) as real + 1.0 == n as real;
    }
  }

  /** The length of the shortest burst that a window with this count rejects. */
  function FirstRejected(cfg: Config, count: real): (n: nat)
    ensures n >= 1 && count + n as real > cfg.max
    ensures n > 1 ==> count + n as real <= cfg.max + 1.0
  {
    if count + 1.0 > cfg.max then 1 else (cfg.max - count).Floor + 1
  }

  /** The burst that tells a fuller window from an emptier one, or from none. */
  lemma {:induction false} BurstTells(cfg: Config, weak: Buckets, strong: Buckets, key: string, now: real)
    requires cfg.Valid() && IsLive(cfg, strong, key, now) && strong[key].count >= 1.0
    requires IsLive(cfg, weak, key, now) ==>
      weak[key].count <= strong[key].count - 1.0 && weak[key].count <= cfg.max - 1.0
    ensures var g := Burst(key, now, FirstRejected(cfg, strong[key].count));
      RememberingReplies(cfg, weak, g) != RememberingReplies(cfg, strong, g)
  {
    var n := FirstRejected(cfg, strong[key].count);
    BurstReply(cfg, strong, key, now, n);
    if IsLive(cfg, weak, key, now) {
      BurstReply(cfg, weak, key, now, n);
    } else {
      FreshBurstReply(cfg, weak, key, now, n);
    }
  }

  lemma {:induction false} WholeCountsApart(a: real, b: real)
    requires a < b && a == a.Floor as real && b == b.Floor as real
    ensures a <= b - 1.0
  {
    assert a.Floor + 1 <= b.Floor;
  }

  /** A forward continuation that tells the two apart, when at some key they are not alike. */
  lemma {:induction false} TellingRequests(
    cfg: Config, a: Buckets, b: Buckets, key: string, t: real) returns (g: seq<Request>)
    requires cfg.Valid() && Whole(a) && Whole(b) && !KeyAlike(cfg, a, b, key, t)
    ensures ClockRuns(t, g) && RememberingReplies(cfg, a, g) != RememberingReplies(cfg, b, g)
  {
    if !IsLive(cfg, a, key, t) {
      g := TellingBurst(cfg, a, b, key, t, t);
    } else if !IsLive(cfg, b, key, t) {
      g := TellingBurst(cfg, b, a, key, t, t);
    } else if a[key].windowStart < b[key].windowStart {
      g := TellingBurst(cfg, a, b, key, t, a[key].windowStart + cfg.windowMs);
    } else if b[key].windowStart < a[key].windowStart {
      g := TellingBurst(cfg, b, a, key, t, b[key].windowStart + cfg.windowMs);
    } else if a[key].count < b[key].count {
      WholeCountsApart(a[key].count, b[key].count);
      g := TellingBurst(cfg, a, b, key, t, t);
    } else {
      WholeCountsApart(b[key].count, a[key].count);
      g := TellingBurst(cfg, b, a, key, t, t);
    }
  }

  lemma {:induction false} TellingBurst(cfg: Config, weak: Buckets, strong: Buckets, key: string, t: real, now: real)
    returns (g: seq<Request>)
    requires cfg.Valid() && t <= now && IsLive(cfg, strong, key, now) && strong[key].count >= 1.0
    requires IsLive(cfg, weak, key, now) ==>
      weak[key].count <= strong[key].count - 1.0 && weak[key].count <= cfg.max - 1.0
    ensures ClockRuns(t, g) && RememberingReplies(cfg, weak, g) != RememberingReplies(cfg, strong, g)
  {
    var n := FirstRejected(cfg, strong[key].count);
    g := Burst(key, now, n);
    BurstRuns(key, t, now, n);
    BurstTells(cfg, weak, strong, key, now);
  }

  /** The limiter's own cleanup is invisible from here on, so only its buckets matter. */
  lemma {:induction false} OnlyBucketsMatter(cfg: Config, s: State, t: real, g: seq<Request>)
    requires ClockRuns(t, g)
    ensures Replies(cfg, s, g) == RememberingReplies(cfg, s.buckets, g)
  {
    CleanupIsInvisible(cfg, s, s.buckets, t, g);
  }

  /** The limiter and one that remembers all reply alike to every forward continuation. */
  ghost predicate CannotBeTold(cfg: Config, s: State, all: Buckets, t: real) {
    forall g :: ClockRuns(t, g) ==> Replies(cfg, s, g) == RememberingReplies(cfg, all, g)
  }

  lemma {:induction false} ToldApartExactly(cfg: Config, s: State, all: Buckets, t: real)
    requires cfg.Valid() && Whole(s.buckets) && Whole(all)
    ensures CannotBeTold(cfg, s, all, t) <==> Alike(cfg, s.buckets, all, t)
  {
    if Alike(cfg, s.buckets, all, t) {
      forall g | ClockRuns(t, g)
        ensures Replies(cfg, s, g) == RememberingReplies(cfg, all, g)
      {
        OnlyBucketsMatter(cfg, s, t, g);
        AlikeReplyAlike(cfg, s.buckets, all, t, g);
      }
    } else {
      var k :| !KeyAlike(cfg, s.buckets, all, k, t);
      var g := TellingRequests(cfg, s.buckets, all, k, t);
      OnlyBucketsMatter(cfg, s, t, g);
    }
  }

  function HandleAll(cfg: Config, s: State, h: seq<Request>): State
    decreases |h|
  {
    if h == [] then s else HandleAll(cfg, Handle(cfg, s, h[0]), h[1..])
  }

  lemma {:induction false} WeightIsWhole(r: Request)
    ensures Weight(r) == Weight(r).Floor as real
  {
  }

  lemma {:induction false} WholeSum(a: real, b: real)
    requires a == a.Floor as real && b == b.Floor as real
    ensures a + b == (a + b).Floor as real
  {
    assert a + b == (a.Floor + b.Floor) as real;
  }

  lemma {:induction false} RememberKeepsWhole(cfg: Config, bs: Buckets, r: Request)
    requires Whole(bs)
    ensures Whole(Remember(cfg, bs, r))
  {
    WeightIsWhole(r);
    if !r.healthz && !StartsWindow(cfg, bs, r) {
      WholeSum(bs[r.key].count, Weight(r));
    }
  }

  lemma {:induction false} CountsStayWhole(cfg: Config, s: State, all: Buckets, h: seq<Request>)
    requires Whole(s.buckets) && Whole(all)
    ensures Whole(HandleAll(cfg, s, h).buckets) && Whole(RememberAll(cfg, all, h))
    decreases |h|
  {
    if h != [] {
      RememberKeepsWhole(cfg, all, h[0]);
      RememberKeepsWhole(cfg, Cleanup(cfg, s, h[0].now, false).buckets, h[0]);
      CountsStayWhole(cfg, Handle(cfg, s, h[0]), Remember(cfg, all, h[0]), h[1..]);
    }
  }

  /**
   After any history, whatever its clock did: deleting buckets is invisible to every
   forward continuation from `t` exactly when the same windows are open at `t` with
   counts alike.
   */
  lemma {:induction false} CleanupIsInvisibleExactly(cfg: Config, h: seq<Request>, t: real)
    requires cfg.Valid()
    ensures var s, all := HandleAll(cfg, START, h), RememberAll(cfg, map[], h);
      CannotBeTold(cfg, s, all, t) <==> Alike(cfg, s.buckets, all, t)
  {
    CountsStayWhole(cfg, START, map[], h);
    ToldApartExactly(cfg, HandleAll(cfg, START, h), RememberAll(cfg, map[], h), t);
  }

  /** With a clock that goes back, cleanup shows: the same history is admitted and rejected differently. */
  lemma {:induction false} BackwardClockExample()
    ensures var cfg := Config(2.0, 1.0);
      var h := [Get("a", 0.0), Get("b", 3.0), Get("a", 1.0)];
      Replies(cfg, START, h)[2] == Admitted && RememberingReplies(cfg, map[], h)[2].Rejected?
  {
    var cfg := Config(2.0, 1.0);
    var r0, r1, r2 := Get("a", 0.0), Get("b", 3.0), Get("a", 1.0);
    var h := [r0, r1, r2];
    assert h[1..] == [r1, r2] && [r1, r2][1..] == [r2];
    var s1 := Handle(cfg, START, r0);
    assert s1.buckets == map["a" := Bucket(0.0, 1.0)];
    var s2 := Handle(cfg, s1, r1);
    assert s2.buckets == map["b" := Bucket(3.0, 1.0)];
    assert HandleReply(cfg, s2, r2) == Admitted;
    var b1 := Remember(cfg, map[], r0);
    var b2 := Remember(cfg, b1, r1);
    assert b2["a"] == Bucket(0.0, 1.0);
    assert Replies(cfg, START, h)[2] == Replies(cfg, s1, [r1, r2])[1];
    assert RememberingReplies(cfg, map[], h)[2] == RememberingReplies(cfg, b1, [r1, r2])[1];
  }
}
