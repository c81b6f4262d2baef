/** The bucketed rate limiter over the in-memory client. A call reads the clock to pick
    a bucket, increments the bucket's counter, and arms its expiry if it was the first
    to write it. The increment and the arming are separate steps, so calls interleave. */
module RateLimiter {
  import opened Common
  import opened RedisStore

  datatype Config = Config(prefix: string, limit: int, window: nat) {
    ghost predicate Valid() {
      window > 0
    }

    function Bucket(t: real): int
      requires window > 0
    {
      (t / window as real).Floor
    }

    function Key(b: int): string {
      prefix + IntText(b)
    }
  }

  /** `keyAt` is the clock reading that picks the bucket, `at` the one inside the client call. */
  datatype Event = Bump(cost: int, keyAt: real, at: real) | Arm(keyAt: real, at: real)

  /** Costs are positive and each client call happens within one window of the reading
      that picked its bucket. */
  ghost predicate WellTimed(c: Config, events: seq<Event>) {
    forall e :: e in events ==> e.keyAt <= e.at <= e.keyAt + c.window as real && (e.Bump? ==> e.cost >= 1)
  }

  function Step(c: Config, s: Store, e: Event): Result
    requires c.window > 0
  {
    match e
    case Bump(cost, keyAt, at) => Exec(s, Incr(c.Key(c.Bucket(keyAt)), cost), at)
    case Arm(keyAt, at) => Exec(s, Expire(c.Key(c.Bucket(keyAt)), c.window * 2), at)
  }

  function StoreAfter(c: Config, events: seq<Event>): Store
    requires c.window > 0
  {
    if events == [] then map[]
    else Step(c, StoreAfter(c, events[..|events| - 1]), events[|events| - 1]).store
  }

  /** The counter value the last event of `events` got to see. */
  function LastCount(c: Config, events: seq<Event>): int
    requires c.window > 0 && events != []
  {
    Count(Step(c, StoreAfter(c, events[..|events| - 1]), events[|events| - 1]).reply)
  }

  /** The last event is a call that was let through. */
  predicate LastAllowed(c: Config, events: seq<Event>)
    requires c.window > 0 && events != []
  {
    events[|events| - 1].Bump? && LastCount(c, events) <= c.limit
  }

  predicate InBucket(c: Config, e: Event, b: int)
    requires c.window > 0
  {
    e.Bump? && c.Bucket(e.keyAt) == b
  }

  /** Cost asked for in bucket `b`, let through or not. */
  function Requested(c: Config, events: seq<Event>, b: int): int
    requires c.window > 0
  {
    if events == [] then 0
    else
      var e := events[|events| - 1];
      Requested(c, events[..|events| - 1], b) + if InBucket(c, e, b) then e.cost else 0
  }

  function AllowedCost(c: Config, events: seq<Event>, b: int): int
    requires c.window > 0
  {
    if events == [] then 0
    else
      var e := events[|events| - 1];
      AllowedCost(c, events[..|events| - 1], b) + if InBucket(c, e, b) && LastAllowed(c, events) then e.cost else 0
  }

  /** Cost let through in the half-open interval [a, a + window). */
  function AllowedFrom(c: Config, events: seq<Event>, a: real): int
    requires c.window > 0
  {
    if events == [] then 0
    else
      var e := events[|events| - 1];
      AllowedFrom(c, events[..|events| - 1], a) +
      if LastAllowed(c, events) && a <= e.keyAt < a + c.window as real then e.cost else 0
  }

  // ---------- Buckets ----------

  /** The first instant of bucket `b`, written without a product. */
  function StartOf(window: nat, b: int): real
    decreases if b < 0 then -b else b
  {
    if b == 0 then 0.0
    else if b > 0 then StartOf(window, b - 1) + window as real
    else StartOf(window, b + 1) - window as real
  }

  lemma NextStart(window: nat, b: int)
    ensures StartOf(window, b + 1) == StartOf(window, b) + window as real
  {
  }

  lemma {:induction false} StartIsProduct(window: nat, b: int)
    ensures StartOf(window, b) == b as real * window as real
    decreases if b < 0 then -b else b
  {
    if b > 0 {
      StartIsProduct(window, b - 1);
    } else if b < 0 {
      StartIsProduct(window, b + 1);
    }
  }

  lemma DivLess(t: real, w: real, x: real)
    requires w > 0.0
    ensures t / w < x <==> t < x * w
  {
    var q := t / w;
    assert q * w == t;
    if q < x {
      assert (x - q) * w > 0.0;
    } else {
      assert (q - x) * w >= 0.0;
    }
  }

  lemma BucketIs(c: Config, t: real, b: int)
    requires c.Valid()
    ensures c.Bucket(t) == b <==> StartOf(c.window, b) <= t < StartOf(c.window, b + 1)
  {
    var w := c.window as real;
    StartIsProduct(c.window, b);
    StartIsProduct(c.window, b + 1);
    DivLess(t, w, b as real);
    DivLess(t, w, (b + 1) as real);
  }

  lemma BucketBounds(c: Config, t: real)
    requires c.Valid()
    ensures StartOf(c.window, c.Bucket(t)) <= t < StartOf(c.window, c.Bucket(t) + 1)
  {
    BucketIs(c, t, c.Bucket(t));
  }

  lemma KeysDiffer(c: Config, b: int, d: int)
    requires c.Key(b) == c.Key(d)
    ensures b == d
  {
    assert c.Key(b)[|c.prefix|..] == IntText(b) && c.Key(d)[|c.prefix|..] == IntText(d);
    IntRoundTrip(b);
    IntRoundTrip(d);
  }

  // ---------- The counter is exact ----------

  /** The counter of bucket `b` holds `n` and cannot expire before the end of the window
      after the bucket. */
  ghost predicate CounterIs(c: Config, s: Store, b: int, n: int)
    requires c.window > 0
  {
    var k := c.Key(b);
    if k in s then
      s[k].value == IntText(n) && (s[k].expiry.Some? ==> StartOf(c.window, b + 2) <= s[k].expiry.value)
    else n == 0
  }

  lemma IncrCounts(s: Store, k: string, n: int, cost: int, at: real)
    requires if k in s then s[k].value == IntText(n) && Live(s[k], at) else n == 0
    ensures
      var r := Exec(s, Incr(k, cost), at);
      r.reply == Num(n + cost) &&
      r.store == s[k := Entry(IntText(n + cost), if k in s then s[k].expiry else None)]
  {
    IntRoundTrip(n);
    assert IntText(0) == "0";
  }

  lemma StepCounts(c: Config, s: Store, e: Event, n: int)
    requires c.Valid() && WellTimed(c, [e]) && CounterIs(c, s, c.Bucket(e.keyAt), n)
    ensures
      var r := Step(c, s, e);
      CounterIs(c, r.store, c.Bucket(e.keyAt), n + if e.Bump? then e.cost else 0) &&
      (e.Bump? ==> r.reply == Num(n + e.cost))
  {
    assert e in [e];
    var b := c.Bucket(e.keyAt);
    BucketBounds(c, e.keyAt);
    NextStart(c.window, b);
    NextStart(c.window, b + 1);
    if e.Bump? {
      IncrCounts(s, c.Key(b), n, e.cost, e.at);
    }
  }

  lemma OtherBucketsUntouched(c: Config, s: Store, e: Event, b: int, n: int)
    requires c.Valid() && c.Bucket(e.keyAt) != b && CounterIs(c, s, b, n)
    ensures CounterIs(c, Step(c, s, e).store, b, n)
  {
    if c.Key(c.Bucket(e.keyAt)) == c.Key(b) {
      KeysDiffer(c, c.Bucket(e.keyAt), b);
    } else {
      ExecIsLocal(c, s, e, c.Key(b));
    }
  }

  lemma ExecIsLocal(c: Config, s: Store, e: Event, k: string)
    requires c.Valid() && c.Key(c.Bucket(e.keyAt)) != k
    ensures Lookup(Step(c, s, e).store, k) == Lookup(s, k)
  {
  }

  lemma CounterStep(c: Config, s: Store, e: Event, b: int, n: int)
    requires c.Valid() && WellTimed(c, [e]) && CounterIs(c, s, b, n)
    ensures
      var r := Step(c, s, e);
      CounterIs(c, r.store, b, n + if InBucket(c, e, b) then e.cost else 0) &&
      (InBucket(c, e, b) ==> r.reply == Num(n + e.cost))
  {
    if c.Bucket(e.keyAt) == b {
      StepCounts(c, s, e, n);
    } else {
      OtherBucketsUntouched(c, s, e, b, n);
    }
  }

  lemma {:induction false} CounterOfBucket(c: Config, events: seq<Event>, b: int)
    requires c.Valid() && WellTimed(c, events)
    ensures CounterIs(c, StoreAfter(c, events), b, Requested(c, events, b))
    decreases |events|
  {
    if events != [] {
      var before, e := events[..|events| - 1], events[|events| - 1];
      TimedSplit(c, events);
      CounterOfBucket(c, before, b);
      CounterStep(c, StoreAfter(c, before), e, b, Requested(c, before, b));
    }
  }

  lemma TimedSplit(c: Config, events: seq<Event>)
    requires WellTimed(c, events) && events != []
    ensures WellTimed(c, events[..|events| - 1]) && WellTimed(c, [events[|events| - 1]])
  {
    assert events[|events| - 1] in events;
  }

  /** Whatever the interleaving and even if calls are reordered in time, a call sees
      exactly the cost requested in its bucket so far, its own included. */
  lemma {:induction false} CounterIsExact(c: Config, events: seq<Event>, b: int)
    requires c.Valid() && WellTimed(c, events)
    ensures CounterIs(c, StoreAfter(c, events), b, Requested(c, events, b))
    ensures events != [] && InBucket(c, events[|events| - 1], b) ==> LastCount(c, events) == Requested(c, events, b)
  {
    CounterOfBucket(c, events, b);
    if events != [] {
      var before, e := events[..|events| - 1], events[|events| - 1];
      TimedSplit(c, events);
      CounterOfBucket(c, before, b);
      CounterStep(c, StoreAfter(c, before), e, b, Requested(c, before, b));
    }
  }

  /** A call is let through exactly if the cost requested in its bucket so far, its own
      included, is within the limit. */
  lemma {:induction false} AllowedIffWithinLimit(c: Config, events: seq<Event>)
    requires c.Valid() && WellTimed(c, events) && events != [] && events[|events| - 1].Bump?
    ensures LastAllowed(c, events) <==> Requested(c, events, c.Bucket(events[|events| - 1].keyAt)) <= c.limit
  {
    CounterIsExact(c, events, c.Bucket(events[|events| - 1].keyAt));
  }

  lemma {:induction false} BucketNeverOverspends(c: Config, events: seq<Event>, b: int)
    requires c.Valid() && WellTimed(c, events) && c.limit >= 0
    ensures 0 <= AllowedCost(c, events, b) <= Requested(c, events, b)
    ensures AllowedCost(c, events, b) <= c.limit
    decreases |events|
  {
    if events != [] {
      var before, e := events[..|events| - 1], events[|events| - 1];
      assert WellTimed(c, before) && e in events;
      BucketNeverOverspends(c, before, b);
      CounterIsExact(c, events, b);
    }
  }

  // ---------- Sliding intervals ----------

  /** Where an instant of the interval from `a` falls. */
  lemma WithinTwoBuckets(c: Config, a: real, t: real)
    requires c.Valid() && a <= t < a + c.window as real
    ensures c.Bucket(t) == c.Bucket(a) || c.Bucket(t) == c.Bucket(a) + 1
    ensures a == StartOf(c.window, c.Bucket(a)) ==> c.Bucket(t) == c.Bucket(a)
  {
    var b := c.Bucket(a);
    BucketBounds(c, a);
    NextStart(c.window, b);
    NextStart(c.window, b + 1);
    BucketIs(c, t, if t < StartOf(c.window, b + 1) then b else b + 1);
  }

  lemma {:induction false} TwoBuckets(c: Config, events: seq<Event>, a: real)
    requires c.Valid() && WellTimed(c, events)
    ensures AllowedFrom(c, events, a) <= AllowedCost(c, events, c.Bucket(a)) + AllowedCost(c, events, c.Bucket(a) + 1)
    ensures a == StartOf(c.window, c.Bucket(a)) ==> AllowedFrom(c, events, a) <= AllowedCost(c, events, c.Bucket(a))
    decreases |events|
  {
    if events != [] {
      var e := events[|events| - 1];
      TimedSplit(c, events);
      TwoBuckets(c, events[..|events| - 1], a);
      assert e in [e];
      if a <= e.keyAt < a + c.window as real {
        WithinTwoBuckets(c, a, e.keyAt);
      }
    }
  }

  /** Any interval of one window's length lets through at most twice the limit. */
  lemma {:induction false} AnyWindowAtMostTwiceLimit(c: Config, events: seq<Event>, a: real)
    requires c.Valid() && WellTimed(c, events) && c.limit >= 0
    ensures AllowedFrom(c, events, a) <= 2 * c.limit
  {
    TwoBuckets(c, events, a);
    BucketNeverOverspends(c, events, c.Bucket(a));
    BucketNeverOverspends(c, events, c.Bucket(a) + 1);
  }

  /** Spend the whole limit at `a` and again at the start of the next bucket. */
  function Burst(c: Config, a: real): seq<Event>
    requires c.window > 0
  {
    var next := StartOf(c.window, c.Bucket(a) + 1);
    [Bump(c.limit, a, a), Bump(c.limit, next, next)]
  }

  /** A call within the limit in a bucket nobody has used yet. */
  lemma FirstOfBucketCounts(c: Config, before: seq<Event>, e: Event, a: real)
    requires c.Valid() && WellTimed(c, before + [e]) && e.Bump? && e.cost <= c.limit
    requires Requested(c, before, c.Bucket(e.keyAt)) == 0 && a <= e.keyAt < a + c.window as real
    ensures AllowedFrom(c, before + [e], a) == AllowedFrom(c, before, a) + e.cost
    ensures forall b :: Requested(c, before + [e], b) == Requested(c, before, b) + if c.Bucket(e.keyAt) == b then e.cost else 0
  {
    assert (before + [e])[..|before|] == before;
    AllowedIffWithinLimit(c, before + [e]);
  }

  lemma BurstDoublesLimit(c: Config, a: real)
    requires c.Valid() && c.limit >= 1 && a != StartOf(c.window, c.Bucket(a))
    ensures WellTimed(c, Burst(c, a)) && AllowedFrom(c, Burst(c, a), a) == 2 * c.limit
  {
    var b, next := c.Bucket(a), StartOf(c.window, c.Bucket(a) + 1);
    BucketBounds(c, a);
    NextStart(c.window, b);
    NextStart(c.window, b + 1);
    BucketIs(c, next, b + 1);
    var first, second := Bump(c.limit, a, a), Bump(c.limit, next, next);
    assert [] + [first] == [first] && [first] + [second] == Burst(c, a);
    FirstOfBucketCounts(c, [], first, a);
    FirstOfBucketCounts(c, [first], second, a);
  }

  /** The limit itself holds over the interval from `a` in every run exactly when `a` is
      the start of a bucket: the limiter has fixed windows, not sliding ones. */
  lemma {:induction false} SlidingLimitHoldsIff(c: Config, a: real)
    requires c.Valid() && c.limit >= 1
    ensures (forall events :: WellTimed(c, events) ==> AllowedFrom(c, events, a) <= c.limit)
            <==> a == StartOf(c.window, c.Bucket(a))
  {
    if a == StartOf(c.window, c.Bucket(a)) {
      forall events | WellTimed(c, events)
        ensures AllowedFrom(c, events, a) <= c.limit
      {
        TwoBuckets(c, events, a);
        BucketNeverOverspends(c, events, c.Bucket(a));
      }
    } else {
      BurstDoublesLimit(c, a);
    }
  }

  class DistributedRateLimiter {
    const client: InMemoryRedisClient
    const config: Config

    constructor (client: InMemoryRedisClient, tenant: string, resource: string, limit: int, window: nat)
      requires window > 0
      ensures this.client == client
      ensures config == Config("scamon:" + tenant + ":ratelimit:" + resource + ":", limit, window)
    {
      this.client := client;
      config := Config("scamon:" + tenant + ":ratelimit:" + resource + ":", limit, window);
    }

    /** A Bump step, followed by an Arm step if the counter was fresh. */
    method IsAllowed(cost: int, keyAt: real, at: real, armAt: real) returns (allowed: bool, remaining: int)
      requires config.window > 0
      modifies client
      ensures
        var r := Step(config, old(client.store), Bump(cost, keyAt, at));
        var n := Count(r.reply);
        && client.store == (if n == cost then Step(config, r.store, Arm(keyAt, armAt)).store else r.store)
        && allowed == (n <= config.limit)
        && remaining == (if n <= config.limit then config.limit - n else 0)
    {
      var key := config.Key(config.Bucket(keyAt));
      var n := client.Incr(key, cost, at);
      if n == cost {
        var _ := client.Expire(key, config.window * 2, armAt);
      }
      allowed := n <= config.limit;
      remaining := if config.limit - n > 0 then config.limit - n else 0;
    }
  }
}
