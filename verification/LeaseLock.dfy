/** The tenant lease lock over one shared in-memory client: SET NX PX to acquire, a
    compare-and-delete script to release. Owner tokens are fresh UUIDs, so a client is
    identified with its token. */
module LeaseLock {
  import opened Common
  import opened RedisStore

  /** `Other` is any client call on the shared store that does not write the lock key. */
  datatype Event = TryAcquire(owner: string, ttlMs: int) | Release(owner: string) | Other(op: Op)

  datatype Timed = Timed(event: Event, now: real)

  datatype LockState = LockState(store: Store, acquired: set<string>)

  datatype LockResult = LockResult(state: LockState, ok: bool)

  predicate Harmless(op: Op, key: string) {
    match op
    case Get(_) => true
    case Ttl(_) => true
    case Exists(_) => true
    case Set(k, _, _, _, _, _) => k != key
    case Incr(k, _) => k != key
    case Expire(k, _) => k != key
    case Delete(keys) => key !in keys
    case ReleaseScript(keys, _) => keys != [] ==> keys[0] != key
  }

  function SetNx(key: string, owner: string, ttlMs: int): Op {
    Set(key, owner, None, Some(ttlMs), true, false)
  }

  function StepLock(st: LockState, key: string, t: Timed): LockResult {
    match t.event
    case TryAcquire(o, ttlMs) =>
      var r := Exec(st.store, SetNx(key, o, ttlMs), t.now);
      var ok := r.reply == Flag(true);
      LockResult(LockState(r.store, if ok then st.acquired + {o} else st.acquired), ok)
    case Release(o) =>
      if o !in st.acquired then LockResult(st, false)
      else
        var r := Exec(st.store, ReleaseScript([key], [o]), t.now);
        LockResult(LockState(r.store, st.acquired - {o}), r.reply == Num(1))
    case Other(op) => LockResult(st.(store := Exec(st.store, op, t.now).store), false)
  }

  function Oks(st: LockState, key: string, events: seq<Timed>): seq<bool>
    ensures |Oks(st, key, events)| == |events|
    decreases |events|
  {
    if events == [] then []
    else
      var r := StepLock(st, key, events[0]);
      [r.ok] + Oks(r.state, key, events[1..])
  }

  ghost predicate Clocked(t: real, events: seq<Timed>)
    decreases |events|
  {
    events != [] ==> t <= events[0].now && Clocked(events[0].now, events[1..])
  }

  ghost predicate OthersHarmless(events: seq<Timed>, key: string) {
    forall t :: t in events && t.event.Other? ==> Harmless(t.event.op, key)
  }

  // ---------- The lease as a specification ----------

  datatype Lease = Free | Held(owner: string, until: real)

  datatype LeaseState = LeaseState(lease: Lease, acquired: set<string>)

  datatype LeaseResult = LeaseResult(state: LeaseState, ok: bool)

  predicate InForce(lease: Lease, now: real) {
    lease.Held? && now <= lease.until
  }

  function StepLease(a: LeaseState, t: Timed): LeaseResult {
    match t.event
    case TryAcquire(o, ttlMs) =>
      if InForce(a.lease, t.now) then LeaseResult(a, false)
      else LeaseResult(LeaseState(Held(o, t.now + ttlMs as real / 1000.0), a.acquired + {o}), true)
    case Release(o) =>
      var ok := o in a.acquired && InForce(a.lease, t.now) && a.lease.owner == o;
      LeaseResult(LeaseState(if ok then Free else a.lease, a.acquired - {o}), ok)
    case Other(_) => LeaseResult(a, false)
  }

  function LeaseOks(a: LeaseState, events: seq<Timed>): seq<bool>
    ensures |LeaseOks(a, events)| == |events|
    decreases |events|
  {
    if events == [] then []
    else
      var r := StepLease(a, events[0]);
      [r.ok] + LeaseOks(r.state, events[1..])
  }

  ghost predicate Matches(st: LockState, a: LeaseState, key: string, t: real) {
    && st.acquired == a.acquired
    && if InForce(a.lease, t) then Lookup(st.store, key) == Some(Entry(a.lease.owner, Some(a.lease.until)))
       else !Present(st.store, key, t)
  }

  lemma {:induction false} ExistsKeeps(s: Store, keys: seq<string>, now: real, key: string)
    ensures
      var s' := ExistsAll(s, keys, now).store;
      Lookup(s', key) == Lookup(s, key) || (Dead(s, key, now) && key !in s')
    decreases |keys|
  {
    if keys != [] {
      ExistsKeeps(DropDead(s, keys[0], now), keys[1..], now, key);
    }
  }

  lemma {:induction false} DeleteKeeps(s: Store, keys: seq<string>, key: string)
    requires key !in keys
    ensures Lookup(DeleteAll(s, keys).store, key) == Lookup(s, key)
    decreases |keys|
  {
    if keys != [] {
      DeleteKeeps(s - {keys[0]}, keys[1..], key);
    }
  }

  lemma HarmlessKeeps(s: Store, op: Op, now: real, key: string)
    requires Harmless(op, key)
    ensures
      var s' := Exec(s, op, now).store;
      Lookup(s', key) == Lookup(s, key) || (Dead(s, key, now) && key !in s')
  {
    match op {
      case Exists(keys) => ExistsKeeps(s, keys, now, key);
      case Delete(keys) => DeleteKeeps(s, keys, key);
      case _ =>
    }
  }

  lemma StepMatches(st: LockState, a: LeaseState, key: string, t: real, e: Timed)
    requires Matches(st, a, key, t) && t <= e.now
    requires e.event.Other? ==> Harmless(e.event.op, key)
    ensures StepLock(st, key, e).ok == StepLease(a, e).ok
    ensures Matches(StepLock(st, key, e).state, StepLease(a, e).state, key, e.now)
  {
    if e.event.Other? {
      HarmlessKeeps(st.store, e.event.op, e.now, key);
    }
  }

  /** The store-based lock answers every request as the lease does, over any
      interleaving of any number of clients. */
  lemma {:induction false} LockRefinesLease(st: LockState, a: LeaseState, key: string, t: real, events: seq<Timed>)
    requires Matches(st, a, key, t) && Clocked(t, events) && OthersHarmless(events, key)
    ensures Oks(st, key, events) == LeaseOks(a, events)
    decreases |events|
  {
    if events != [] {
      var e := events[0];
      assert e in events;
      StepMatches(st, a, key, t, e);
      LockRefinesLease(StepLock(st, key, e).state, StepLease(a, e).state, key, e.now, events[1..]);
    }
  }

  /** `o` gives its lease back at some event before `j`. */
  ghost predicate ReleasedBefore(events: seq<Timed>, oks: seq<bool>, o: string, i: int, j: int)
    requires |events| == |oks| && 0 <= i && j <= |events|
  {
    exists m :: i <= m < j && events[m].event == Release(o) && oks[m]
  }

  lemma ReleasedLater(events: seq<Timed>, oks: seq<bool>, o: string, i: nat, j: nat)
    requires |events| == |oks| && j < |events|
    ensures ReleasedBefore(events[1..], oks[1..], o, i, j) ==> ReleasedBefore(events, oks, o, i + 1, j + 1)
  {
    if ReleasedBefore(events[1..], oks[1..], o, i, j) {
      var m :| i <= m < j && events[1..][m].event == Release(o) && oks[1..][m];
      assert events[m + 1].event == Release(o) && oks[m + 1];
    }
  }

  lemma {:induction false} LeaseHolds(a: LeaseState, events: seq<Timed>, j: nat)
    requires a.lease.Held? && j < |events| && events[j].now <= a.lease.until
    requires Clocked(events[0].now, events)
    requires !ReleasedBefore(events, LeaseOks(a, events), a.lease.owner, 0, j)
    ensures LeaseOks(a, events)[j] ==> events[j].event == Release(a.lease.owner)
    decreases |events|
  {
    var oks := LeaseOks(a, events);
    ClockedAt(events[0].now, events, j);
    if j > 0 {
      var a', rest := StepLease(a, events[0]).state, events[1..];
      assert oks[1..] == LeaseOks(a', rest);
      assert !(events[0].event == Release(a.lease.owner) && oks[0]);
      assert a'.lease == a.lease;
      ReleasedLater(events, oks, a.lease.owner, 0, j - 1);
      LeaseHolds(a', rest, j - 1);
    }
  }

  lemma {:induction false} ClockedAt(t: real, events: seq<Timed>, j: nat)
    requires Clocked(t, events) && j < |events|
    ensures t <= events[j].now
    decreases |events|
  {
    if j > 0 {
      ClockedAt(events[0].now, events[1..], j - 1);
    }
  }

  lemma {:induction false} AcquiredLeaseHolds(a: LeaseState, t: real, events: seq<Timed>, i: nat, j: nat)
    requires i < j < |events| && Clocked(t, events)
    requires events[i].event.TryAcquire? && LeaseOks(a, events)[i]
    requires events[j].now <= events[i].now + events[i].event.ttlMs as real / 1000.0
    requires !ReleasedBefore(events, LeaseOks(a, events), events[i].event.owner, i + 1, j)
    ensures LeaseOks(a, events)[j] ==> events[j].event == Release(events[i].event.owner)
    decreases |events|
  {
    var a', rest := StepLease(a, events[0]).state, events[1..];
    var oks, oks' := LeaseOks(a, events), LeaseOks(a', rest);
    assert oks[1..] == oks';
    var o := events[i].event.owner;
    ReleasedLater(events, oks, o, i, j - 1);
    if i == 0 {
      LeaseHolds(a', rest, j - 1);
    } else {
      AcquiredLeaseHolds(a', events[0].now, rest, i - 1, j - 1);
    }
  }

  /** Once a client has acquired at time t, no request of any client succeeds until t+ttl
      has passed, except its own release; in particular nobody acquires and no late release
      by a former owner takes the lease away. */
  lemma {:induction false} MutualExclusion(st: LockState, a: LeaseState, key: string, t: real, events: seq<Timed>, i: nat, j: nat)
    requires Matches(st, a, key, t) && Clocked(t, events) && OthersHarmless(events, key)
    requires i < j < |events|
    requires events[i].event.TryAcquire? && Oks(st, key, events)[i]
    requires Oks(st, key, events)[j] && events[j].event != Release(events[i].event.owner)
    ensures
      || events[j].now > events[i].now + events[i].event.ttlMs as real / 1000.0
      || ReleasedBefore(events, Oks(st, key, events), events[i].event.owner, i + 1, j)
  {
    LockRefinesLease(st, a, key, t, events);
    if events[j].now <= events[i].now + events[i].event.ttlMs as real / 1000.0 &&
       !ReleasedBefore(events, Oks(st, key, events), events[i].event.owner, i + 1, j)
    {
      AcquiredLeaseHolds(a, t, events, i, j);
    }
  }

  lemma EmptyStoreMatches(key: string, t: real)
    ensures Matches(LockState(map[], {}), LeaseState(Free, {}), key, t)
  {
  }

  /** The same for every run of clients on a fresh store. */
  lemma MutualExclusionFromEmptyStore(key: string, t: real, events: seq<Timed>, i: nat, j: nat)
    requires Clocked(t, events) && OthersHarmless(events, key) && i < j < |events|
    requires
      var oks := Oks(LockState(map[], {}), key, events);
      events[i].event.TryAcquire? && oks[i] && oks[j] && events[j].event != Release(events[i].event.owner)
    ensures
      || events[j].now > events[i].now + events[i].event.ttlMs as real / 1000.0
      || ReleasedBefore(events, Oks(LockState(map[], {}), key, events), events[i].event.owner, i + 1, j)
  {
    EmptyStoreMatches(key, t);
    MutualExclusion(LockState(map[], {}), LeaseState(Free, {}), key, t, events, i, j);
  }

  // ---------- The lock object ----------

  /** One round of the polling loop: the clock at the loop test, the clock inside the
      client call, and what other tasks do to the store during the sleep after it. */
  datatype Poll = Poll(check: real, attempt: real, others: seq<Call>)

  function AfterCalls(s: Store, calls: seq<Call>): Store
    decreases |calls|
  {
    if calls == [] then s else AfterCalls(Exec(s, calls[0].op, calls[0].now).store, calls[1..])
  }

  /** The store at round `i`, given that all earlier attempts were refused. */
  function StoreAt(s: Store, polls: seq<Poll>, i: nat): Store
    requires i <= |polls|
  {
    if i == 0 then s else AfterCalls(StoreAt(s, polls, i - 1), polls[i - 1].others)
  }

  /** Rounds before `n` are within the timeout and find the lock taken. */
  ghost predicate RefusedUntil(s: Store, polls: seq<Poll>, key: string, start: real, timeout: real, n: nat)
    requires n <= |polls|
  {
    forall i :: 0 <= i < n ==>
      polls[i].check - start < timeout && Present(StoreAt(s, polls, i), key, polls[i].attempt)
  }

  lemma RefusedOnceMore(s0: Store, polls: seq<Poll>, key: string, start: real, timeout: real, i: nat, s: Store)
    requires i < |polls| && RefusedUntil(s0, polls, key, start, timeout, i) && s == StoreAt(s0, polls, i)
    requires polls[i].check - start < timeout && Present(s, key, polls[i].attempt)
    ensures RefusedUntil(s0, polls, key, start, timeout, i + 1)
    ensures StoreAt(s0, polls, i + 1) == AfterCalls(s, polls[i].others)
  {
  }

  method Perform(client: InMemoryRedisClient, op: Op, now: real)
    modifies client
    ensures client.store == Exec(old(client.store), op, now).store
  {
    match op {
      case Get(k) => var _ := client.Get(k, now);
      case Set(k, v, ex, px, nx, xx) => var _ := client.Set(k, v, ex, px, nx, xx, now);
      case Delete(keys) => var _ := client.Delete(keys);
      case Ttl(k) => var _ := client.Ttl(k, now);
      case Exists(keys) => var _ := client.Exists(keys, now);
      case Incr(k, n) => var _ := client.Incr(k, n, now);
      case Expire(k, n) => var _ := client.Expire(k, n, now);
      case ReleaseScript(keys, args) => var _ := client.EvalRelease(keys, args, now);
    }
  }

  method PerformAll(client: InMemoryRedisClient, calls: seq<Call>)
    modifies client
    ensures client.store == AfterCalls(old(client.store), calls)
  {
    for i := 0 to |calls|
      invariant AfterCalls(old(client.store), calls) == AfterCalls(client.store, calls[i..])
    {
      assert calls[i..][0] == calls[i] && calls[i..][1..] == calls[i + 1..];
      Perform(client, calls[i].op, calls[i].now);
    }
  }

  lemma SetNxEffect(s: Store, key: string, owner: string, ttlMs: int, now: real)
    ensures Exec(s, SetNx(key, owner, ttlMs), now) ==
            if Present(s, key, now) then Result(s, Flag(false))
            else Result(s[key := Entry(owner, Some(now + ttlMs as real / 1000.0))], Flag(true))
  {
  }

  class DistributedTenantLock {
    const client: InMemoryRedisClient
    const lockKey: string
    const token: string
    const ttlMs: int
    var acquired: bool

    constructor (client: InMemoryRedisClient, tenant: string, resource: string, token: string, ttlMs: int)
      ensures this.client == client && lockKey == "scamon:" + tenant + ":lock:" + resource
      ensures this.token == token && this.ttlMs == ttlMs && !acquired
    {
      this.client, this.token, this.ttlMs := client, token, ttlMs;
      lockKey := "scamon:" + tenant + ":lock:" + resource;
      acquired := false;
    }

    function LeaseEntry(now: real): Entry {
      Entry(token, Some(now + ttlMs as real / 1000.0))
    }

    /** One attempt: by `SetNxEffect` the TryAcquire step of this lock's token. */
    method TryAcquire(now: real) returns (ok: bool)
      modifies this, client
      ensures ok == !Present(old(client.store), lockKey, now)
      ensures client.store == if ok then old(client.store)[lockKey := LeaseEntry(now)] else old(client.store)
      ensures acquired == (old(acquired) || ok)
    {
      SetNxEffect(client.store, lockKey, token, ttlMs, now);
      ok := client.Set(lockKey, token, None, Some(ttlMs), true, false, now);
      if ok {
        acquired := true;
      }
    }

    /** An attempt and, if it fails, what others do while this caller sleeps. */
    method Round(p: Poll) returns (ok: bool)
      modifies this, client
      ensures ok == !Present(old(client.store), lockKey, p.attempt)
      ensures client.store ==
              if ok then old(client.store)[lockKey := LeaseEntry(p.attempt)] else AfterCalls(old(client.store), p.others)
      ensures acquired == (old(acquired) || ok)
    {
      ok := TryAcquire(p.attempt);
      if !ok {
        PerformAll(client, p.others);
      }
    }

    /** The clock passes the deadline at the last round at the latest. */
    method Acquire(start: real, timeout: real, polls: seq<Poll>) returns (ok: bool, ghost n: nat)
      requires polls != [] && polls[|polls| - 1].check - start >= timeout
      modifies this, client
      ensures n < |polls| && RefusedUntil(old(client.store), polls, lockKey, start, timeout, n)
      ensures ok <==> polls[n].check - start < timeout
      ensures
        var s := StoreAt(old(client.store), polls, n);
        if ok then
          !Present(s, lockKey, polls[n].attempt) &&
          client.store == s[lockKey := LeaseEntry(polls[n].attempt)]
        else client.store == s
      ensures acquired == (old(acquired) || ok)
    {
      var i := 0;
      while polls[i].check - start < timeout
        invariant i < |polls|
        invariant RefusedUntil(old(client.store), polls, lockKey, start, timeout, i)
        invariant client.store == StoreAt(old(client.store), polls, i)
        invariant acquired == old(acquired)
        decreases |polls| - i
      {
        ghost var s := client.store;
        ok := Round(polls[i]);
        if ok {
          n := i;
          return;
        }
        RefusedOnceMore(old(client.store), polls, lockKey, start, timeout, i, s);
        i := i + 1;
      }
      ok, n := false, i;
    }

    /** The Release step of this lock's token. */
    method Release(now: real) returns (ok: bool)
      modifies this, client
      ensures !acquired
      ensures if !old(acquired) then !ok && client.store == old(client.store)
              else ok == (Exec(old(client.store), ReleaseScript([lockKey], [token]), now).reply == Num(1)) &&
                   client.store == Exec(old(client.store), ReleaseScript([lockKey], [token]), now).store
    {
      if !acquired {
        return false;
      }
      var n := client.EvalRelease([lockKey], [token], now);
      acquired := false;
      return n == 1;
    }
  }
}
