/** Ingestion deduplication over the shared Redis client, related to the local engine. */
module RedisDedup {
  import opened Common
  import opened Dedup
  import Redis = RedisStore

  function RedisKey(m: Message): string {
    "scamon:" + m.tenant + ":dedup:" + m.account + ":" + Seed(m)
  }

  lemma {:induction false} RedisKeySeparates(m: Message, n: Message)
    ensures RedisKey(m) == RedisKey(n) <==> Seed(m) == Seed(n)
  {
    SeedSeparates(m, n);
    assert RedisKey(m)[87..] == Seed(m) && RedisKey(n)[87..] == Seed(n);
  }

  datatype RedisState = RedisState(store: Redis.Store, checked: nat, duplicates: nat)

  datatype RedisStep = RedisStep(state: RedisState, reply: Reply)

  /** The calls both engines offer: `is_duplicate`, `mark_seen` and `check_and_mark`. */
  ghost predicate Shared(calls: seq<Call>) {
    forall c :: c in calls ==> c.op.IsDuplicate? || c.op.MarkSeen? || c.op.CheckAndMark?
  }

  function StepRedis(s: RedisState, c: Call): RedisStep
    requires c.op.IsDuplicate? || c.op.MarkSeen? || c.op.CheckAndMark?
  {
    var key := RedisKey(c.op.msg);
    match c.op
    case IsDuplicate(_) =>
      var r := Redis.Exec(s.store, Redis.Exists([key]), c.now);
      RedisStep(s.(store := r.store), Answer(Redis.Count(r.reply) > 0))
    case MarkSeen(_, ttl) =>
      var r := Redis.Exec(s.store, Redis.Set(key, "1", Some(ttl), None, false, false), c.now);
      RedisStep(s.(store := r.store), Answer(r.reply == Redis.Flag(true)))
    case CheckAndMark(_, ttl) =>
      var r := Redis.Exec(s.store, Redis.Set(key, "1", Some(ttl), None, true, false), c.now);
      var isNew := r.reply == Redis.Flag(true);
      RedisStep(RedisState(r.store, s.checked + 1, s.duplicates + if isNew then 0 else 1), Answer(isNew))
  }

  function RedisReplies(s: RedisState, calls: seq<Call>): seq<Reply>
    requires Shared(calls)
    decreases |calls|
  {
    if calls == [] then []
    else
      assert calls[0] in calls;
      var r := StepRedis(s, calls[0]);
      [r.reply] + RedisReplies(r.state, calls[1..])
  }

  function RedisRun(s: RedisState, calls: seq<Call>): RedisState
    requires Shared(calls)
    decreases |calls|
  {
    if calls == [] then s
    else
      assert calls[0] in calls;
      RedisRun(StepRedis(s, calls[0]).state, calls[1..])
  }

  /** Both engines hold an entry with the same expiry for a message, or neither does. */
  ghost predicate SameEntry(s: State, r: RedisState, m: Message) {
    match Lookup(r.store, RedisKey(m))
    case None => Seed(m) !in s.table
    case Some(e) => Seed(m) in s.table && e.expiry == Some(s.table[Seed(m)].expiry)
  }

  ghost predicate Mirrors(s: State, r: RedisState) {
    && s.checked == r.checked && s.duplicates == r.duplicates
    && forall m :: SameEntry(s, r, m)
  }

  /** A question asked at the very instant the entry expires. */
  predicate HitsExpiry(s: State, c: Call) {
    (c.op.IsDuplicate? || c.op.CheckAndMark?) && Seed(c.op.msg) in s.table && c.now == s.table[Seed(c.op.msg)].expiry
  }

  lemma ExistsOne(s: Redis.Store, key: string, now: real)
    ensures Redis.Exec(s, Redis.Exists([key]), now) ==
            Redis.Result(Redis.DropDead(s, key, now), Redis.Num(if Redis.Present(s, key, now) then 1 else 0))
  {
    var s' := Redis.DropDead(s, key, now);
    assert Redis.ExistsAll(s', [], now) == Redis.Result(s', Redis.Num(0));
    assert [key][1..] == [];
  }

  lemma StepReplies(s: State, r: RedisState, c: Call)
    requires Mirrors(s, r) && (c.op.IsDuplicate? || c.op.MarkSeen? || c.op.CheckAndMark?)
    ensures StepEngine(s, c).reply == StepRedis(r, c).reply <==> !HitsExpiry(s, c)
    ensures
      var s', r' := StepEngine(s, c).state, StepRedis(r, c).state;
      !HitsExpiry(s, c) ==> s'.checked == r'.checked && s'.duplicates == r'.duplicates
  {
    assert SameEntry(s, r, c.op.msg);
    ExistsOne(r.store, RedisKey(c.op.msg), c.now);
  }

  lemma StepEntries(s: State, r: RedisState, c: Call, n: Message)
    requires Mirrors(s, r) && (c.op.IsDuplicate? || c.op.MarkSeen? || c.op.CheckAndMark?) && !HitsExpiry(s, c)
    ensures SameEntry(StepEngine(s, c).state, StepRedis(r, c).state, n)
  {
    ExistsOne(r.store, RedisKey(c.op.msg), c.now);
    assert SameEntry(s, r, c.op.msg) && SameEntry(s, r, n);
    RedisKeySeparates(c.op.msg, n);
  }

  lemma StepMirrors(s: State, r: RedisState, c: Call)
    requires Mirrors(s, r) && (c.op.IsDuplicate? || c.op.MarkSeen? || c.op.CheckAndMark?)
    ensures StepEngine(s, c).reply == StepRedis(r, c).reply <==> !HitsExpiry(s, c)
    ensures !HitsExpiry(s, c) ==> Mirrors(StepEngine(s, c).state, StepRedis(r, c).state)
  {
    StepReplies(s, r, c);
    if !HitsExpiry(s, c) {
      forall n
        ensures SameEntry(StepEngine(s, c).state, StepRedis(r, c).state, n)
      {
        StepEntries(s, r, c, n);
      }
    }
  }

  ghost predicate NeverHitsExpiry(s: State, calls: seq<Call>)
    decreases |calls|
  {
    calls != [] ==> !HitsExpiry(s, calls[0]) && NeverHitsExpiry(StepEngine(s, calls[0]).state, calls[1..])
  }

  /** Over every run the two engines give the same answers exactly if no question lands on
      the expiry instant of the entry it asks about, and then their counters agree too.
      At that instant the local engine forgets (now < expiry) and Redis remembers
      (now <= expiry). */
  lemma {:induction false} EnginesAgreeIff(s: State, r: RedisState, calls: seq<Call>)
    requires Mirrors(s, r) && Shared(calls)
    ensures Replies(s, calls) == RedisReplies(r, calls) <==> NeverHitsExpiry(s, calls)
    ensures NeverHitsExpiry(s, calls) ==>
              Run(s, calls).checked == RedisRun(r, calls).checked && Run(s, calls).duplicates == RedisRun(r, calls).duplicates
    decreases |calls|
  {
    if calls != [] {
      var c, rest := calls[0], calls[1..];
      assert c in calls;
      StepMirrors(s, r, c);
      var l, q := Replies(s, calls), RedisReplies(r, calls);
      assert l[0] == StepEngine(s, c).reply && q[0] == StepRedis(r, c).reply;
      if !HitsExpiry(s, c) {
        var s', r' := StepEngine(s, c).state, StepRedis(r, c).state;
        EnginesAgreeIff(s', r', rest);
        assert l[1..] == Replies(s', rest) && q[1..] == RedisReplies(r', rest);
        assert Replies(s', rest) == RedisReplies(r', rest) ==> l == q;
      }
    }
  }

  /** No question comes exactly one time to live after a marking of the same message. */
  ghost predicate OffBoundary(calls: seq<Call>) {
    forall i, j :: 0 <= i < j < |calls| && Marks(calls[i]) && Asks(calls[j]) && Seed(calls[i].op.msg) == Seed(calls[j].op.msg) ==>
      calls[j].now != calls[i].now + calls[i].op.ttl as real
  }

  predicate Marks(c: Call) {
    c.op.MarkSeen? || c.op.CheckAndMark?
  }

  predicate Asks(c: Call) {
    c.op.IsDuplicate? || c.op.CheckAndMark?
  }

  lemma {:induction false} OffBoundaryNeverHits(s: State, calls: seq<Call>)
    requires Shared(calls) && OffBoundary(calls)
    requires forall j :: 0 <= j < |calls| && Asks(calls[j]) && Seed(calls[j].op.msg) in s.table ==>
               calls[j].now != s.table[Seed(calls[j].op.msg)].expiry
    ensures NeverHitsExpiry(s, calls)
    decreases |calls|
  {
    if calls != [] {
      var s', rest := StepEngine(s, calls[0]).state, calls[1..];
      assert calls[0] in calls;
      assert forall j :: 0 <= j < |rest| ==> rest[j] == calls[j + 1];
      OffBoundaryNeverHits(s', rest);
    }
  }

  /** A condition on the calls alone, from two empty engines. */
  lemma {:induction false} EnginesAgreeOffBoundary(calls: seq<Call>)
    requires Shared(calls) && OffBoundary(calls)
    ensures
      var s, r := INITIAL, RedisState(map[], 0, 0);
      && Replies(s, calls) == RedisReplies(r, calls)
      && Run(s, calls).checked == RedisRun(r, calls).checked
      && Run(s, calls).duplicates == RedisRun(r, calls).duplicates
  {
    OffBoundaryNeverHits(INITIAL, calls);
    EnginesAgreeIff(INITIAL, RedisState(map[], 0, 0), calls);
  }

  /** The asynchronous methods. The client never raises here, so the fall-back to the
      local table is not reached. */
  class RedisIngestionDeduplicationEngine {
    const client: Redis.InMemoryRedisClient
    const defaultTtl: int
    var checked: nat
    var duplicates: nat

    ghost function View(): RedisState
      reads this, client
    {
      RedisState(client.store, checked, duplicates)
    }

    constructor (client: Redis.InMemoryRedisClient, defaultTtl: int)
      ensures this.client == client && this.defaultTtl == defaultTtl
      ensures View() == RedisState(client.store, 0, 0)
    {
      this.client, this.defaultTtl := client, defaultTtl;
      checked, duplicates := 0, 0;
    }

    function TtlOf(ttl: Option<int>): int {
      if ttl.Some? then ttl.value else defaultTtl
    }

    method IsDuplicateAsync(m: Message, now: real) returns (dup: bool)
      modifies this, client
      ensures RedisStep(View(), Answer(dup)) == StepRedis(old(View()), Call(IsDuplicate(m), now))
    {
      var n := client.Exists([RedisKey(m)], now);
      dup := n > 0;
    }

    method MarkSeenAsync(m: Message, ttl: Option<int>, now: real) returns (ok: bool)
      modifies this, client
      ensures RedisStep(View(), Answer(ok)) == StepRedis(old(View()), Call(MarkSeen(m, TtlOf(ttl)), now))
      ensures
        var key := "scamon:" + m.tenant + ":dedup:" + m.account + ":" + Seed(m);
        client.store == old(client.store)[key := Redis.Entry("1", Some(now + (if ttl.Some? then ttl.value else defaultTtl) as real))]
    {
      ok := client.Set(RedisKey(m), "1", Some(TtlOf(ttl)), None, false, false, now);
    }

    method CheckAndMarkAsync(m: Message, ttl: Option<int>, now: real) returns (isNew: bool)
      modifies this, client
      ensures RedisStep(View(), Answer(isNew)) == StepRedis(old(View()), Call(CheckAndMark(m, TtlOf(ttl)), now))
      ensures
        var key := "scamon:" + m.tenant + ":dedup:" + m.account + ":" + Seed(m);
        && isNew == Redis.Read(old(client.store), key, now).None?
        && (isNew ==> client.store ==
                      old(client.store)[key := Redis.Entry("1", Some(now + (if ttl.Some? then ttl.value else defaultTtl) as real))])
        && checked == old(checked) + 1 && duplicates == old(duplicates) + if isNew then 0 else 1
    {
      isNew := client.Set(RedisKey(m), "1", Some(TtlOf(ttl)), None, true, false, now);
      checked := checked + 1;
      if !isNew {
        duplicates := duplicates + 1;
      }
    }
  }
}
