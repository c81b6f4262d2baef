/** The in-memory Redis client: a dictionary of values with optional expiry instants.
    Expired entries stay in the dictionary until some operation runs into them. */
module RedisStore {
  import opened Common

  datatype Entry = Entry(value: string, expiry: Option<real>)

  type Store = map<string, Entry>

  datatype Op =
    | Get(key: string)
    | Set(key: string, value: string, ex: Option<int>, px: Option<int>, nx: bool, xx: bool)
    | Delete(keys: seq<string>)
    | Ttl(key: string)
    | Exists(keys: seq<string>)
    | Incr(key: string, amount: int)
    | Expire(key: string, seconds: int)
    | ReleaseScript(keys: seq<string>, args: seq<string>)

  datatype Reply = Nil | Text(text: string) | Num(num: int) | Flag(flag: bool)

  datatype Result = Result(store: Store, reply: Reply)

  predicate Live(e: Entry, now: real) {
    e.expiry.Some? ==> now <= e.expiry.value
  }

  predicate Present(s: Store, key: string, now: real) {
    key in s && Live(s[key], now)
  }

  /** In the dictionary, but past its expiry. */
  predicate Dead(s: Store, key: string, now: real) {
    key in s && !Live(s[key], now)
  }

  // ---------- Decimal text of counters ----------

  function DigitText(d: nat): char
    requires d < 10
  {
    ('0' as int + d) as char
  }

  function NatText(n: nat): string {
    if n < 10 then [DigitText(n)] else NatText(n / 10) + [DigitText(n % 10)]
  }

  function IntText(n: int): string {
    if n < 0 then "-" + NatText(-n) else NatText(n)
  }

  function ParseNat(s: string): Option<nat> {
    if s == [] || !('0' <= s[|s| - 1] <= '9') then None
    else
      var d := s[|s| - 1] as int - '0' as int;
      if |s| == 1 then Some(d)
      else match ParseNat(s[..|s| - 1])
        case None => None
        case Some(n) => Some(10 * n + d)
  }

  function Signed(n: Option<nat>, sign: int): Option<int> {
    match n
    case None => None
    case Some(v) => Some(sign * v)
  }

  /** int(text) on an optional sign and decimal digits; None is ValueError. */
  function ParseInt(s: string): Option<int> {
    if s != [] && s[0] == '-' then Signed(ParseNat(s[1..]), -1)
    else Signed(ParseNat(if s != [] && s[0] == '+' then s[1..] else s), 1)
  }

  lemma {:induction false} NatRoundTrip(n: nat)
    ensures ParseNat(NatText(n)) == Some(n)
    ensures NatText(n) != [] && '0' <= NatText(n)[0] <= '9'
  {
    if n >= 10 {
      NatRoundTrip(n / 10);
      var s := NatText(n);
      assert s[..|s| - 1] == NatText(n / 10);
    }
  }

  lemma {:induction false} IntRoundTrip(n: int)
    ensures ParseInt(IntText(n)) == Some(n)
    ensures n >= 0 ==> ParseInt("+" + IntText(n)) == Some(n)
  {
    assert ("+" + IntText(n))[1..] == IntText(n);
    NatRoundTrip(if n < 0 then -n else n);
    if n < 0 {
      assert IntText(n)[1..] == NatText(-n);
    }
  }

  // ---------- Operations ----------

  /** int(x) of a float: rounding toward zero. */
  function Truncate(x: real): int {
    if x >= 0.0 then x.Floor else -((-x).Floor)
  }

  function ExpiryOf(ex: Option<int>, px: Option<int>, now: real): Option<real> {
    if ex.Some? then Some(now + ex.value as real)
    else if px.Some? then Some(now + px.value as real / 1000.0)
    else None
  }

  function DeleteAll(s: Store, keys: seq<string>): Result {
    if keys == [] then Result(s, Num(0))
    else
      var rest := DeleteAll(s - {keys[0]}, keys[1..]);
      Result(rest.store, Num(Count(rest.reply) + if keys[0] in s then 1 else 0))
  }

  function ExistsAll(s: Store, keys: seq<string>, now: real): Result
    decreases |keys|
  {
    if keys == [] then Result(s, Num(0))
    else
      var rest := ExistsAll(DropDead(s, keys[0], now), keys[1..], now);
      Result(rest.store, Num(Count(rest.reply) + if Present(s, keys[0], now) then 1 else 0))
  }

  function Count(r: Reply): int {
    match r case Num(n) => n case _ => 0
  }

  function DropDead(s: Store, key: string, now: real): Store {
    if Dead(s, key, now) then s - {key} else s
  }

  function Exec(s: Store, op: Op, now: real): Result {
    match op
    case Get(k) =>
      if Present(s, k, now) then Result(s, Text(s[k].value)) else Result(DropDead(s, k, now), Nil)
    case Set(k, v, ex, px, nx, xx) =>
      var present := Present(s, k, now);
      if (nx && present) || (xx && !present) then Result(DropDead(s, k, now), Flag(false))
      else Result(s[k := Entry(v, ExpiryOf(ex, px, now))], Flag(true))
    case Delete(keys) => DeleteAll(s, keys)
    case Ttl(k) =>
      if k !in s then Result(s, Num(-2))
      else if s[k].expiry.None? then Result(s, Num(-1))
      else
        var remaining := Truncate(s[k].expiry.value - now);
        if remaining < 0 then Result(s - {k}, Num(-2)) else Result(s, Num(remaining))
    case Exists(keys) => ExistsAll(s, keys, now)
    case Incr(k, amount) =>
      var e := if Present(s, k, now) then s[k] else Entry("0", None);
      var n := match ParseInt(e.value) case Some(v) => v + amount case None => amount;
      Result(s[k := Entry(IntText(n), e.expiry)], Num(n))
    case Expire(k, seconds) =>
      if k in s then Result(s[k := Entry(s[k].value, Some(now + seconds as real))], Flag(true))
      else Result(s, Flag(false))
    case ReleaseScript(keys, args) =>
      if keys == [] then Result(s, Num(0))
      else
        var k, owner := keys[0], if args == [] then "" else args[0];
        if Dead(s, k, now) then Result(s - {k}, Num(0))
        else if k in s && s[k].value == owner then Result(s - {k}, Num(1))
        else Result(s, Num(0))
  }

  // ---------- Expired entries ----------

  /** The store of an implementation that drops every entry the moment it expires. */
  function Purged(s: Store, now: real): Store {
    map k | k in s && Live(s[k], now) :: s[k]
  }

  /** The operations that notice an expired entry: `Expire` revives it, `Delete` counts
      it, and `Ttl` reports 0 for up to a second. */
  predicate SeesExpired(s: Store, op: Op, now: real) {
    match op
    case Expire(k, _) => Dead(s, k, now)
    case Delete(keys) => exists k :: k in keys && Dead(s, k, now)
    case Ttl(k) => Dead(s, k, now) && s[k].expiry.value - now > -1.0
    case _ => false
  }

  ghost predicate LooksPurged(s: Store, op: Op, now: real) {
    var r, eager := Exec(s, op, now), Exec(Purged(s, now), op, now);
    r.reply == eager.reply && Purged(r.store, now) == Purged(eager.store, now)
  }

  lemma PurgedDropDead(s: Store, key: string, now: real)
    ensures Purged(DropDead(s, key, now), now) == Purged(s, now)
    ensures DropDead(Purged(s, now), key, now) == Purged(s, now)
  {
  }

  lemma PurgedRemove(s: Store, key: string, now: real)
    ensures Purged(s - {key}, now) == Purged(s, now) - {key}
  {
  }

  lemma PurgedTwice(s: Store, t: real, now: real)
    requires t <= now
    ensures Purged(Purged(s, t), now) == Purged(s, now)
  {
  }

  lemma PurgedPut(s: Store, key: string, e: Entry, now: real)
    ensures Purged(s[key := e], now) == Purged(Purged(s, now)[key := e], now)
  {
  }

  lemma {:induction false} ExistsLooksPurged(s: Store, keys: seq<string>, now: real)
    ensures ExistsAll(s, keys, now).reply == ExistsAll(Purged(s, now), keys, now).reply
    ensures Purged(ExistsAll(s, keys, now).store, now) == Purged(s, now)
    ensures ExistsAll(Purged(s, now), keys, now).store == Purged(s, now)
    decreases |keys|
  {
    if keys == [] {
      PurgedTwice(s, now, now);
    } else {
      PurgedDropDead(s, keys[0], now);
      ExistsLooksPurged(DropDead(s, keys[0], now), keys[1..], now);
    }
  }

  lemma {:induction false} DeleteLooksPurged(s: Store, keys: seq<string>, now: real)
    ensures Purged(DeleteAll(s, keys).store, now) == DeleteAll(Purged(s, now), keys).store
    ensures Count(DeleteAll(Purged(s, now), keys).reply) <= Count(DeleteAll(s, keys).reply)
    ensures DeleteAll(s, keys).reply.Num? && DeleteAll(Purged(s, now), keys).reply.Num?
    ensures DeleteAll(s, keys).reply == DeleteAll(Purged(s, now), keys).reply <==>
            !exists k :: k in keys && Dead(s, k, now)
    decreases |keys|
  {
    if keys != [] {
      var k, rest := keys[0], keys[1..];
      PurgedRemove(s, k, now);
      DeleteLooksPurged(s - {k}, rest, now);
      assert forall j :: j in keys <==> j == k || j in rest;
      assert forall j :: Dead(s - {k}, j, now) <==> j != k && Dead(s, j, now);
      assert (exists j :: j in keys && Dead(s, j, now)) <==> Dead(s, k, now) || exists j :: j in rest && Dead(s - {k}, j, now);
    }
  }

  lemma SetLooksPurged(s: Store, op: Op, now: real)
    requires op.Set?
    ensures LooksPurged(s, op, now)
  {
    var Set(k, v, ex, px, nx, xx) := op;
    PurgedDropDead(s, k, now);
    PurgedTwice(s, now, now);
    PurgedPut(s, k, Entry(v, ExpiryOf(ex, px, now)), now);
  }

  lemma IncrLooksPurged(s: Store, op: Op, now: real)
    requires op.Incr?
    ensures LooksPurged(s, op, now)
  {
    PurgedPut(s, op.key, Exec(s, op, now).store[op.key], now);
  }

  /** An operation behaves as on an eagerly purged store, in reply and in effect, exactly
      when it is not one of the three that notice an expired entry. */
  lemma {:induction false} PurgingIsInvisibleIff(s: Store, op: Op, now: real)
    ensures LooksPurged(s, op, now) <==> !SeesExpired(s, op, now)
  {
    PurgedTwice(s, now, now);
    match op {
      case Get(k) => PurgedDropDead(s, k, now);
      case Set(_, _, _, _, _, _) => SetLooksPurged(s, op, now);
      case Delete(keys) =>
        DeleteLooksPurged(s, keys, now);
        PurgedTwice(DeleteAll(s, keys).store, now, now);
      case Ttl(k) => PurgedRemove(s, k, now);
      case Exists(keys) => ExistsLooksPurged(s, keys, now);
      case Incr(_, _) => IncrLooksPurged(s, op, now);
      case Expire(k, seconds) =>
        if k in s {
          PurgedPut(s, k, Entry(s[k].value, Some(now + seconds as real)), now);
        }
      case ReleaseScript(keys, _) =>
        if keys != [] {
          PurgedRemove(s, keys[0], now);
        }
    }
  }

  datatype Call = Call(op: Op, now: real)

  ghost predicate Clocked(t: real, calls: seq<Call>)
    decreases |calls|
  {
    calls != [] ==> t <= calls[0].now && Clocked(calls[0].now, calls[1..])
  }

  function Replies(s: Store, calls: seq<Call>): seq<Reply>
    decreases |calls|
  {
    if calls == [] then []
    else
      var r := Exec(s, calls[0].op, calls[0].now);
      [r.reply] + Replies(r.store, calls[1..])
  }

  /** The reference: purge at every instant. */
  function EagerReplies(s: Store, calls: seq<Call>): seq<Reply>
    decreases |calls|
  {
    if calls == [] then []
    else
      var r := Exec(Purged(s, calls[0].now), calls[0].op, calls[0].now);
      [r.reply] + EagerReplies(r.store, calls[1..])
  }

  ghost predicate NoneSeesExpired(s: Store, calls: seq<Call>)
    decreases |calls|
  {
    calls != [] ==>
      && !SeesExpired(s, calls[0].op, calls[0].now)
      && NoneSeesExpired(Exec(s, calls[0].op, calls[0].now).store, calls[1..])
  }

  /** An operation that notices an expired entry gives itself away by its reply. */
  lemma SeeingExpiredShows(s: Store, op: Op, now: real)
    requires SeesExpired(s, op, now)
    ensures Exec(s, op, now).reply != Exec(Purged(s, now), op, now).reply
  {
    if op.Delete? {
      DeleteLooksPurged(s, op.keys, now);
    }
  }

  /** Over any run, lazy deletion cannot be told from eager expiry by the replies exactly if
      no call notices an expired entry. */
  lemma {:induction false} LazyExpiryIsEager(s: Store, eager: Store, t: real, calls: seq<Call>)
    requires Clocked(t, calls) && Purged(s, t) == Purged(eager, t)
    ensures Replies(s, calls) == EagerReplies(eager, calls) <==> NoneSeesExpired(s, calls)
    decreases |calls|
  {
    if calls != [] {
      var op, now, rest := calls[0].op, calls[0].now, calls[1..];
      PurgedTwice(s, t, now);
      PurgedTwice(eager, t, now);
      var r, q := Exec(s, op, now), Exec(Purged(eager, now), op, now);
      assert Replies(s, calls)[0] == r.reply && EagerReplies(eager, calls)[0] == q.reply;
      if SeesExpired(s, op, now) {
        SeeingExpiredShows(s, op, now);
      } else {
        PurgingIsInvisibleIff(s, op, now);
        LazyExpiryIsEager(r.store, q.store, now, rest);
        assert Replies(s, calls)[1..] == Replies(r.store, rest);
        assert EagerReplies(eager, calls)[1..] == EagerReplies(q.store, rest);
      }
    }
  }

  /** A concrete revival: the key is gone for readers, then `Expire` brings it back. */
  lemma ExpireRevives(s: Store, key: string, now: real, seconds: nat)
    requires Dead(s, key, now)
    ensures
      var r := Exec(s, Expire(key, seconds), now);
      && Exec(s, Get(key), now).reply == Nil
      && r.reply == Flag(true)
      && Exec(r.store, Get(key), now).reply == Text(s[key].value)
  {
  }

  // ---------- What readers see ----------

  /** What `Get` answers. */
  function Read(s: Store, key: string, now: real): Option<string> {
    match Exec(s, Get(key), now).reply
    case Text(text) => Some(text)
    case _ => None
  }

  /** A write is seen by later readers until its time to live is over, the last instant
      included, or for good if it has none; EX goes before PX. It is refused exactly if NX
      meets a value or XX meets none, and then readers see what they saw before. */
  lemma {:induction false} SetThenRead(s: Store, k: string, v: string, ex: Option<int>, px: Option<int>, nx: bool, xx: bool,
                                       now: real, other: string, later: real)
    requires now <= later
    ensures
      var r := Exec(s, Set(k, v, ex, px, nx, xx), now);
      && r.reply == Flag(!(nx && Read(s, k, now).Some?) && !(xx && Read(s, k, now).None?))
      && (r.reply == Flag(false) ==> Read(r.store, k, later) == Read(s, k, later))
      && (r.reply == Flag(true) ==>
            Read(r.store, k, later) ==
            if (ex.Some? && later > now + ex.value as real) || (ex.None? && px.Some? && later > now + px.value as real / 1000.0)
            then None else Some(v))
      && (other != k ==> Read(r.store, other, later) == Read(s, other, later))
  {
  }

  /** EXPIRE gives a stored value the new deadline and touches no other key. */
  lemma {:induction false} ExpireThenRead(s: Store, k: string, seconds: int, now: real, other: string, later: real)
    ensures
      var r := Exec(s, Expire(k, seconds), now);
      && r.reply == Flag(k in s)
      && (k in s ==> Read(r.store, k, later) == if later <= now + seconds as real then Some(s[k].value) else None)
      && (k !in s || other != k ==> Read(r.store, other, later) == Read(s, other, later))
  {
  }

  /** TTL tells a value without deadline by -1, one that cannot be read, for a second or more,
      by -2, and otherwise the whole seconds left. */
  lemma {:induction false} TtlTells(s: Store, k: string, now: real)
    ensures
      var n := Exec(s, Ttl(k), now).reply;
      && (k !in s ==> n == Num(-2))
      && (k in s && s[k].expiry.None? <==> n == Num(-1))
      && (k in s && s[k].expiry.Some? ==>
            var left := s[k].expiry.value - now;
            if left >= 0.0 then n.Num? && n.num as real <= left < n.num as real + 1.0
            else if left > -1.0 then n == Num(0) else n == Num(-2))
  {
  }

  /** INCR adds to the number that readers see, or to 0 if they see none, keeps its deadline,
      and drops that of a value that has expired. */
  lemma {:induction false} IncrThenRead(s: Store, k: string, amount: int, now: real, other: string, later: real)
    ensures
      var r := Exec(s, Incr(k, amount), now);
      var before := Read(s, k, now);
      && r.reply.Num? && k in r.store
      && (forall m :: before == Some(IntText(m)) ==> r.reply == Num(m + amount))
      && (before.None? || ParseInt(before.value).None? ==> r.reply == Num(amount))
      && r.store[k].value == IntText(r.reply.num)
      && r.store[k].expiry == (if before.Some? then s[k].expiry else None)
      && (other != k ==> Read(r.store, other, later) == Read(s, other, later))
  {
    IntRoundTrip(0);
    assert IntText(0) == "0";
    forall m | Read(s, k, now) == Some(IntText(m))
      ensures Exec(s, Incr(k, amount), now).reply == Num(m + amount)
    {
      IntRoundTrip(m);
    }
  }

  /** Of `keys`, those in the store. */
  ghost function StoredOf(s: Store, keys: seq<string>): set<string> {
    set j | j in keys && j in s
  }

  lemma StoredOfCons(s: Store, keys: seq<string>)
    requires keys != []
    ensures |StoredOf(s, keys)| == |StoredOf(s - {keys[0]}, keys[1..])| + if keys[0] in s then 1 else 0
  {
    var k, rest := keys[0], keys[1..];
    assert forall j :: j in keys <==> j == k || j in rest;
    assert StoredOf(s, keys) == StoredOf(s - {k}, rest) + if k in s then {k} else {};
  }

  lemma {:induction false} DeleteAllIs(s: Store, keys: seq<string>)
    ensures DeleteAll(s, keys).store == map k | k in s && k !in keys :: s[k]
    ensures DeleteAll(s, keys).reply == Num(|StoredOf(s, keys)|)
    decreases |keys|
  {
    if keys == [] {
      assert StoredOf(s, keys) == {};
    } else {
      DeleteAllIs(s - {keys[0]}, keys[1..]);
      StoredOfCons(s, keys);
      assert forall j :: j in keys <==> j == keys[0] || j in keys[1..];
    }
  }

  /** After DEL its keys cannot be read, every other key as before; it counts each stored key once. */
  lemma {:induction false} DeleteThenRead(s: Store, keys: seq<string>, k: string, now: real)
    ensures
      var r := Exec(s, Delete(keys), now);
      && Read(r.store, k, now) == (if k in keys then None else Read(s, k, now))
      && r.reply == Num(|StoredOf(s, keys)|)
  {
    DeleteAllIs(s, keys);
  }

  function Readable(s: Store, keys: seq<string>, now: real): nat {
    if keys == [] then 0 else (if Read(s, keys[0], now).Some? then 1 else 0) + Readable(s, keys[1..], now)
  }

  /** EXISTS counts the keys of the list that can be read, repeats included, and changes
      nothing that can be read. */
  lemma {:induction false} ExistsCounts(s: Store, keys: seq<string>, now: real, k: string)
    ensures
      var r := Exec(s, Exists(keys), now);
      r.reply == Num(Readable(s, keys, now)) && Read(r.store, k, now) == Read(s, k, now)
    decreases |keys|
  {
    if keys != [] {
      var s' := DropDead(s, keys[0], now);
      ExistsCounts(s', keys[1..], now, k);
      SameReadable(s, keys[0], keys[1..], now);
    }
  }

  lemma {:induction false} SameReadable(s: Store, dead: string, keys: seq<string>, now: real)
    ensures Readable(DropDead(s, dead, now), keys, now) == Readable(s, keys, now)
    decreases |keys|
  {
    if keys != [] {
      SameReadable(s, dead, keys[1..], now);
    }
  }

  /** The release script takes a key away exactly if readers see the caller's token there. */
  lemma {:induction false} ReleaseThenRead(s: Store, k: string, token: string, now: real, other: string)
    ensures
      var r := Exec(s, ReleaseScript([k], [token]), now);
      && r.reply == Num(if Read(s, k, now) == Some(token) then 1 else 0)
      && Read(r.store, k, now) == (if Read(s, k, now) == Some(token) then None else Read(s, k, now))
      && (other != k ==> Read(r.store, other, now) == Read(s, other, now))
  {
  }

  class InMemoryRedisClient {
    var store: Store

    constructor ()
      ensures store == map[]
    {
      store := map[];
    }

    method Get(key: string, now: real) returns (value: Option<string>)
      modifies this
      ensures Result(store, if value.Some? then Text(value.value) else Nil) == Exec(old(store), Op.Get(key), now)
    {
      if key !in store {
        return None;
      }
      var e := store[key];
      if e.expiry.Some? && now > e.expiry.value {
        store := store - {key};
        return None;
      }
      return Some(e.value);
    }

    method Set(key: string, value: string, ex: Option<int>, px: Option<int>, nx: bool, xx: bool, now: real)
      returns (ok: bool)
      modifies this
      ensures Result(store, Flag(ok)) == Exec(old(store), Op.Set(key, value, ex, px, nx, xx), now)
    {
      var present := false;
      if key in store {
        var e := store[key];
        if e.expiry.None? || now <= e.expiry.value {
          present := true;
        } else {
          store := store - {key};
        }
      }
      if nx && present {
        return false;
      }
      if xx && !present {
        return false;
      }
      var expiry: Option<real> := None;
      if ex.Some? {
        expiry := Some(now + ex.value as real);
      } else if px.Some? {
        expiry := Some(now + px.value as real / 1000.0);
      }
      store := store[key := Entry(value, expiry)];
      assert store == old(store)[key := Entry(value, expiry)];
      return true;
    }

    method Delete(keys: seq<string>) returns (count: int)
      modifies this
      ensures Result(store, Num(count)) == Exec(old(store), Op.Delete(keys), 0.0)
    {
      count := 0;
      for i := 0 to |keys|
        invariant DeleteAll(old(store), keys).store == DeleteAll(store, keys[i..]).store
        invariant DeleteAll(old(store), keys).reply == Num(count + Count(DeleteAll(store, keys[i..]).reply))
      {
        assert keys[i..][0] == keys[i] && keys[i..][1..] == keys[i + 1..];
        ghost var s := store;
        if keys[i] in store {
          store := store - {keys[i]};
          count := count + 1;
        }
        assert store == s - {keys[i]};
      }
    }

    method Ttl(key: string, now: real) returns (seconds: int)
      modifies this
      ensures Result(store, Num(seconds)) == Exec(old(store), Op.Ttl(key), now)
    {
      if key !in store {
        return -2;
      }
      var e := store[key];
      if e.expiry.None? {
        return -1;
      }
      seconds := Truncate(e.expiry.value - now);
      if seconds < 0 {
        store := store - {key};
        return -2;
      }
    }

    method Exists(keys: seq<string>, now: real) returns (count: int)
      modifies this
      ensures Result(store, Num(count)) == Exec(old(store), Op.Exists(keys), now)
    {
      count := 0;
      for i := 0 to |keys|
        invariant ExistsAll(old(store), keys, now).store == ExistsAll(store, keys[i..], now).store
        invariant ExistsAll(old(store), keys, now).reply == Num(count + Count(ExistsAll(store, keys[i..], now).reply))
      {
        assert keys[i..][0] == keys[i] && keys[i..][1..] == keys[i + 1..];
        if keys[i] in store {
          var e := store[keys[i]];
          if e.expiry.None? || now <= e.expiry.value {
            count := count + 1;
          } else {
            store := store - {keys[i]};
          }
        }
      }
    }

    method Incr(key: string, amount: int, now: real) returns (n: int)
      modifies this
      ensures Result(store, Num(n)) == Exec(old(store), Op.Incr(key, amount), now)
    {
      var e := if key in store then store[key] else Entry("0", None);
      if e.expiry.Some? && now > e.expiry.value {
        e := Entry("0", None);
      }
      var v := ParseInt(e.value);
      n := if v.Some? then v.value + amount else amount;
      store := store[key := Entry(IntText(n), e.expiry)];
    }

    method Expire(key: string, seconds: int, now: real) returns (ok: bool)
      modifies this
      ensures Result(store, Flag(ok)) == Exec(old(store), Op.Expire(key, seconds), now)
    {
      ok := key in store;
      if ok {
        store := store[key := Entry(store[key].value, Some(now + seconds as real))];
      }
    }

    method EvalRelease(keys: seq<string>, args: seq<string>, now: real) returns (n: int)
      modifies this
      ensures Result(store, Num(n)) == Exec(old(store), ReleaseScript(keys, args), now)
    {
      if keys == [] {
        return 0;
      }
      var key := keys[0];
      var owner := if args != [] then args[0] else "";
      if key !in store {
        return 0;
      }
      var e := store[key];
      if e.expiry.Some? && now > e.expiry.value {
        store := store - {key};
        return 0;
      }
      if e.value == owner {
        store := store - {key};
        return 1;
      }
      return 0;
    }
  }
}
