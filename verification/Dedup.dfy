/** Ingestion deduplication kept in local memory: a message is a duplicate until its
    entry expires. Expired entries are deleted when met, or by `prune_expired`. */
module Dedup {
  import opened Common

  datatype Message = Message(tenant: UuidText, account: UuidText, id: string)

  predicate IsSpace(c: char) {
    c == ' ' || '\t' <= c <= '\r' || '\U{1C}' <= c <= '\U{1F}'
  }

  function Strip(s: string): string {
    if s == [] then s
    else if IsSpace(s[0]) then Strip(s[1..])
    else if IsSpace(s[|s| - 1]) then Strip(s[..|s| - 1])
    else s
  }

  /** Stripping takes away white space at both ends, and all of it. */
  lemma {:induction false} StripIsInner(s: string) returns (before: string, after: string)
    ensures s == before + Strip(s) + after
    ensures forall c :: c in before || c in after ==> c as int in {9, 10, 11, 12, 13, 28, 29, 30, 31, 32}
    ensures Strip(s) != "" ==>
              Strip(s)[0] as int !in {9, 10, 11, 12, 13, 28, 29, 30, 31, 32} &&
              Strip(s)[|Strip(s)| - 1] as int !in {9, 10, 11, 12, 13, 28, 29, 30, 31, 32}
    decreases |s|
  {
    before, after := "", "";
    if s != "" && IsSpace(s[0]) {
      before, after := StripIsInner(s[1..]);
      before := [s[0]] + before;
    } else if s != "" && IsSpace(s[|s| - 1]) {
      before, after := StripIsInner(s[..|s| - 1]);
      after := after + [s[|s| - 1]];
    }
  }

  /** SHA-256 is taken to be injective, so the key is represented by the hashed seed. */
  function Seed(m: Message): string {
    m.tenant + ":" + m.account + ":" + Strip(m.id)
  }

  /** Messages share a key exactly if they agree up to surrounding white space. */
  lemma {:induction false} SeedSeparates(m: Message, n: Message)
    ensures Seed(m) == Seed(n) <==> m.tenant == n.tenant && m.account == n.account && Strip(m.id) == Strip(n.id)
  {
    assert Seed(m)[..36] == m.tenant && Seed(m)[37..73] == m.account && Seed(m)[74..] == Strip(m.id);
    assert Seed(n)[..36] == n.tenant && Seed(n)[37..73] == n.account && Seed(n)[74..] == Strip(n.id);
  }

  datatype Record = Record(key: string, tenant: UuidText, account: UuidText, messageId: string, ingestedAt: real, expiresAt: real)

  datatype Slot = Slot(record: Record, expiry: real)

  type Table = map<string, Slot>

  datatype State = State(table: Table, checked: nat, duplicates: nat)

  /** `ttl` is the caller's ttl_sec, or the engine's default where none was given. */
  datatype Op =
    | IsDuplicate(msg: Message)
    | MarkSeen(msg: Message, ttl: int)
    | CheckAndMark(msg: Message, ttl: int)
    | GetRecord(msg: Message)
    | Prune
    | Clear(tenant: Option<UuidText>)

  datatype Reply = Answer(flag: bool) | Found(record: Option<Record>) | Done

  datatype Call = Call(op: Op, now: real)

  datatype Step = Step(state: State, reply: Reply)

  function SlotFor(m: Message, ttl: int, now: real): Slot {
    Slot(Record(Seed(m), m.tenant, m.account, Strip(m.id), now, now + ttl as real), now + ttl as real)
  }

  predicate Fresh(t: Table, key: string, now: real) {
    key in t && now < t[key].expiry
  }

  function Unexpired(t: Table, now: real): Table {
    map k | k in t && now < t[k].expiry :: t[k]
  }

  function WithoutTenant(t: Table, tenant: Option<UuidText>): Table {
    map k | k in t && tenant.Some? && t[k].record.tenant != tenant.value :: t[k]
  }

  /** A query that meets an expired entry deletes it. */
  function Touched(t: Table, key: string, now: real): Table {
    if Fresh(t, key, now) then t else t - {key}
  }

  function StepEngine(s: State, c: Call): Step {
    match c.op
    case IsDuplicate(m) =>
      Step(s.(table := Touched(s.table, Seed(m), c.now)), Answer(Fresh(s.table, Seed(m), c.now)))
    case MarkSeen(m, ttl) => Step(s.(table := s.table[Seed(m) := SlotFor(m, ttl, c.now)]), Answer(true))
    case CheckAndMark(m, ttl) =>
      var s' := s.(checked := s.checked + 1);
      if Fresh(s.table, Seed(m), c.now) then Step(s'.(duplicates := s.duplicates + 1), Answer(false))
      else Step(s'.(table := s.table[Seed(m) := SlotFor(m, ttl, c.now)]), Answer(true))
    case GetRecord(m) =>
      Step(s.(table := Touched(s.table, Seed(m), c.now)),
           Found(if Fresh(s.table, Seed(m), c.now) then Some(s.table[Seed(m)].record) else None))
    case Prune => Step(s.(table := Unexpired(s.table, c.now)), Done)
    case Clear(tenant) => Step(s.(table := WithoutTenant(s.table, tenant)), Done)
  }

  function Replies(s: State, calls: seq<Call>): seq<Reply>
    ensures |Replies(s, calls)| == |calls|
    decreases |calls|
  {
    if calls == [] then []
    else
      var r := StepEngine(s, calls[0]);
      [r.reply] + Replies(r.state, calls[1..])
  }

  function Run(s: State, calls: seq<Call>): State
    decreases |calls|
  {
    if calls == [] then s else Run(StepEngine(s, calls[0]).state, calls[1..])
  }

  ghost predicate Clocked(t: real, calls: seq<Call>)
    decreases |calls|
  {
    calls != [] ==> t <= calls[0].now && Clocked(calls[0].now, calls[1..])
  }

  // ---------- The table that never forgets ----------

  datatype RefStep = RefStep(table: Table, reply: Reply)

  function StepReference(t: Table, c: Call): RefStep {
    match c.op
    case IsDuplicate(m) => RefStep(t, Answer(Fresh(t, Seed(m), c.now)))
    case MarkSeen(m, ttl) => RefStep(t[Seed(m) := SlotFor(m, ttl, c.now)], Answer(true))
    case CheckAndMark(m, ttl) =>
      if Fresh(t, Seed(m), c.now) then RefStep(t, Answer(false))
      else RefStep(t[Seed(m) := SlotFor(m, ttl, c.now)], Answer(true))
    case GetRecord(m) => RefStep(t, Found(if Fresh(t, Seed(m), c.now) then Some(t[Seed(m)].record) else None))
    case Prune => RefStep(t, Done)
    case Clear(tenant) => RefStep(WithoutTenant(t, tenant), Done)
  }

  function RefReplies(t: Table, calls: seq<Call>): seq<Reply>
    ensures |RefReplies(t, calls)| == |calls|
    decreases |calls|
  {
    if calls == [] then []
    else
      var r := StepReference(t, calls[0]);
      [r.reply] + RefReplies(r.table, calls[1..])
  }

  /** The engine's table lacks only entries that have expired by `now`. */
  ghost predicate Covers(ref: Table, t: Table, now: real) {
    && (forall k :: k in t ==> k in ref && t[k] == ref[k])
    && (forall k :: k in ref && k !in t ==> ref[k].expiry <= now)
  }

  lemma StepCovers(s: State, ref: Table, t: real, c: Call)
    requires Covers(ref, s.table, t) && t <= c.now
    ensures Covers(StepReference(ref, c).table, StepEngine(s, c).state.table, c.now)
    ensures StepReference(ref, c).reply == StepEngine(s, c).reply
  {
    match c.op {
      case IsDuplicate(m) => TouchedCovers(ref, s.table, t, Seed(m), c.now);
      case GetRecord(m) => TouchedCovers(ref, s.table, t, Seed(m), c.now);
      case MarkSeen(m, ttl) =>
      case CheckAndMark(m, ttl) =>
      case Prune =>
      case Clear(_) =>
    }
  }

  lemma TouchedCovers(ref: Table, table: Table, t: real, key: string, now: real)
    requires Covers(ref, table, t) && t <= now
    ensures Covers(ref, Touched(table, key, now), now) && Fresh(ref, key, now) == Fresh(table, key, now)
  {
  }

  /** Lazy deletion, pruning and clearing are invisible: the engine answers every call
      like a table that never drops an expired entry. */
  lemma {:induction false} ForgettingIsInvisible(s: State, ref: Table, t: real, calls: seq<Call>)
    requires Covers(ref, s.table, t) && Clocked(t, calls)
    ensures Replies(s, calls) == RefReplies(ref, calls)
    decreases |calls|
  {
    if calls != [] {
      var r, r' := StepEngine(s, calls[0]), StepReference(ref, calls[0]);
      StepCovers(s, ref, t, calls[0]);
      ForgettingIsInvisible(r.state, r'.table, calls[0].now, calls[1..]);
    }
  }

  // ---------- Which occurrences are accepted ----------

  ghost predicate Sifting(calls: seq<Call>) {
    forall c :: c in calls ==> !c.op.MarkSeen? && !c.op.Clear?
  }

  ghost predicate Accepted(calls: seq<Call>, replies: seq<Reply>, i: int, key: string)
    requires |calls| == |replies|
  {
    0 <= i < |calls| && calls[i].op.CheckAndMark? && Seed(calls[i].op.msg) == key && replies[i] == Answer(true)
  }

  /** An accepted occurrence of `key` before `j` whose time to live covers `now`. */
  ghost predicate CoveredBefore(calls: seq<Call>, replies: seq<Reply>, j: int, key: string, now: real)
    requires |calls| == |replies|
  {
    exists i :: 0 <= i < j && Accepted(calls, replies, i, key) && now < calls[i].now + calls[i].op.ttl as real
  }

  lemma {:induction false} ClockedAt(t: real, calls: seq<Call>, j: nat)
    requires Clocked(t, calls) && j < |calls|
    ensures t <= calls[j].now
    decreases |calls|
  {
    if j > 0 {
      ClockedAt(calls[0].now, calls[1..], j - 1);
    }
  }

  lemma CoveredSplit(calls: seq<Call>, replies: seq<Reply>, j: nat, key: string, now: real)
    requires |calls| == |replies| && 0 < j < |calls|
    ensures CoveredBefore(calls, replies, j, key, now) <==>
            || CoveredBefore(calls[1..], replies[1..], j - 1, key, now)
            || (Accepted(calls, replies, 0, key) && now < calls[0].now + calls[0].op.ttl as real)
  {
    var rest, replies' := calls[1..], replies[1..];
    if CoveredBefore(rest, replies', j - 1, key, now) {
      var i :| 0 <= i < j - 1 && Accepted(rest, replies', i, key) && now < rest[i].now + rest[i].op.ttl as real;
      assert Accepted(calls, replies, i + 1, key);
    }
    if CoveredBefore(calls, replies, j, key, now) {
      var i :| 0 <= i < j && Accepted(calls, replies, i, key) && now < calls[i].now + calls[i].op.ttl as real;
      assert i > 0 ==> Accepted(rest, replies', i - 1, key);
    }
  }

  /** For the reference: refused exactly if the entry present at the start or an accepted
      occurrence since then is still within its time to live. */
  lemma {:induction false} RefusedIff(ref: Table, t: real, calls: seq<Call>, j: nat)
    requires Sifting(calls) && Clocked(t, calls) && j < |calls| && calls[j].op.CheckAndMark?
    ensures
      var key, now := Seed(calls[j].op.msg), calls[j].now;
      RefReplies(ref, calls)[j] == Answer(false) <==>
      Fresh(ref, key, now) || CoveredBefore(calls, RefReplies(ref, calls), j, key, now)
    decreases |calls|
  {
    var key, now := Seed(calls[j].op.msg), calls[j].now;
    var replies := RefReplies(ref, calls);
    assert calls[0] in calls;
    if j > 0 {
      var ref', rest := StepReference(ref, calls[0]).table, calls[1..];
      var replies' := RefReplies(ref', rest);
      assert replies[0] == StepReference(ref, calls[0]).reply && replies[1..] == replies';
      ClockedAt(t, calls, 0);
      ClockedAt(calls[0].now, rest, j - 1);
      RefusedIff(ref', calls[0].now, rest, j - 1);
      CoveredSplit(calls, replies, j, key, now);
    }
  }

  const INITIAL := State(map[], 0, 0)

  /** In runs without `mark_seen` and `clear`, an occurrence is refused exactly if an
      earlier accepted one of the same message is still within its time to live; hence
      accepted occurrences are at least the earlier one's time to live apart. */
  lemma {:induction false} AcceptedIffNoLiveOccurrence(t: real, calls: seq<Call>, j: nat)
    requires Sifting(calls) && Clocked(t, calls) && j < |calls| && calls[j].op.CheckAndMark?
    ensures
      var replies := Replies(INITIAL, calls);
      replies[j] == Answer(true) <==> !CoveredBefore(calls, replies, j, Seed(calls[j].op.msg), calls[j].now)
    ensures
      var replies := Replies(INITIAL, calls);
      forall i :: 0 <= i < j && Accepted(calls, replies, i, Seed(calls[j].op.msg)) && replies[j] == Answer(true) ==>
        calls[i].now + calls[i].op.ttl as real <= calls[j].now
  {
    ForgettingIsInvisible(INITIAL, map[], t, calls);
    RefusedIff(map[], t, calls, j);
    RepliesToChecks(INITIAL, calls, j);
  }

  lemma {:induction false} RepliesToChecks(s: State, calls: seq<Call>, j: nat)
    requires j < |calls| && calls[j].op.CheckAndMark?
    ensures Replies(s, calls)[j].Answer?
    decreases |calls|
  {
    if j > 0 {
      RepliesToChecks(StepEngine(s, calls[0]).state, calls[1..], j - 1);
    }
  }

  function Checks(calls: seq<Call>, replies: seq<Reply>, flag: bool): nat
    requires |calls| == |replies|
  {
    if calls == [] then 0
    else Checks(calls[1..], replies[1..], flag) + if calls[0].op.CheckAndMark? && replies[0] == Answer(flag) then 1 else 0
  }

  /** Checked = accepted + duplicates, over every run. */
  lemma {:induction false} ChecksAreCounted(s: State, calls: seq<Call>)
    ensures
      var replies, s' := Replies(s, calls), Run(s, calls);
      && s'.duplicates == s.duplicates + Checks(calls, replies, false)
      && s'.checked == s.checked + Checks(calls, replies, true) + Checks(calls, replies, false)
    decreases |calls|
  {
    if calls != [] {
      var r := StepEngine(s, calls[0]);
      assert Replies(s, calls)[1..] == Replies(r.state, calls[1..]);
      ChecksAreCounted(r.state, calls[1..]);
    }
  }

  // ---------- Records and clearing ----------

  /** Every entry is filed under the key of its own message and tenant. */
  ghost predicate Filed(t: Table) {
    forall k :: k in t ==>
      exists m: Message :: Seed(m) == k && t[k].record.tenant == m.tenant && t[k].record.key == k
  }

  lemma {:induction false} RunKeepsFiled(s: State, calls: seq<Call>)
    requires Filed(s.table)
    ensures Filed(Run(s, calls).table)
    decreases |calls|
  {
    if calls != [] {
      StepKeepsFiled(s, calls[0]);
      RunKeepsFiled(StepEngine(s, calls[0]).state, calls[1..]);
    }
  }

  lemma StepKeepsFiled(s: State, c: Call)
    requires Filed(s.table)
    ensures Filed(StepEngine(s, c).state.table)
  {
    var t' := StepEngine(s, c).state.table;
    forall k | k in t'
      ensures exists m: Message :: Seed(m) == k && t'[k].record.tenant == m.tenant && t'[k].record.key == k
    {
      if k !in s.table || t'[k] != s.table[k] {
        assert Seed(c.op.msg) == k;
      }
    }
  }

  /** A message is known while a question about it is answered by "duplicate". */
  predicate Known(s: State, m: Message, now: real) {
    StepEngine(s, Call(IsDuplicate(m), now)).reply == Answer(true)
  }

  /** Clearing a tenant, after any run, makes every message of that tenant new; what is known
      and recorded of other tenants stays. Clearing without a tenant makes all messages new. */
  lemma {:induction false} ClearForgetsTenant(calls: seq<Call>, tenant: Option<UuidText>, at: real, m: Message, ttl: int, now: real)
    ensures
      var s := Run(INITIAL, calls);
      var s' := StepEngine(s, Call(Clear(tenant), at)).state;
      var cleared := tenant.None? || m.tenant == tenant.value;
      && Known(s', m, now) == (!cleared && Known(s, m, now))
      && StepEngine(s', Call(CheckAndMark(m, ttl), now)).reply == Answer(cleared || !Known(s, m, now))
      && StepEngine(s', Call(GetRecord(m), now)).reply ==
         (if cleared then Found(None) else StepEngine(s, Call(GetRecord(m), now)).reply)
      && s'.checked == s.checked && s'.duplicates == s.duplicates
  {
    RunKeepsFiled(INITIAL, calls);
    var s, key := Run(INITIAL, calls), Seed(m);
    if key in s.table {
      var n: Message :| Seed(n) == key && s.table[key].record.tenant == n.tenant;
      SeedSeparates(m, n);
    }
  }

  /** The record of an accepted message, as long as its time to live lasts. */
  lemma {:induction false} RecordOfAccepted(s: State, m: Message, ttl: int, now: real, later: real)
    requires !Known(s, m, now)
    ensures
      var r := StepEngine(s, Call(CheckAndMark(m, ttl), now));
      && r.reply == Answer(true)
      && StepEngine(r.state, Call(GetRecord(m), later)).reply ==
         Found(if later < now + ttl as real
               then Some(Record(Seed(m), m.tenant, m.account, Strip(m.id), now, now + ttl as real)) else None)
  {
  }

  class IngestionDeduplicationEngine {
    const defaultTtl: int
    var table: Table
    var checked: nat
    var duplicates: nat

    ghost function View(): State
      reads this
    {
      State(table, checked, duplicates)
    }

    constructor (defaultTtl: int)
      ensures this.defaultTtl == defaultTtl && View() == INITIAL
    {
      this.defaultTtl := defaultTtl;
      table, checked, duplicates := map[], 0, 0;
    }

    function TtlOf(ttl: Option<int>): int {
      if ttl.Some? then ttl.value else defaultTtl
    }

    method IsDuplicate(m: Message, now: real) returns (dup: bool)
      modifies this
      ensures Step(View(), Answer(dup)) == StepEngine(old(View()), Call(Op.IsDuplicate(m), now))
    {
      var key := Seed(m);
      if key in table && now < table[key].expiry {
        return true;
      }
      table := table - {key};
      return false;
    }

    method MarkSeen(m: Message, ttl: Option<int>, now: real) returns (ok: bool)
      modifies this
      ensures Step(View(), Answer(ok)) == StepEngine(old(View()), Call(Op.MarkSeen(m, TtlOf(ttl)), now))
      ensures Seed(m) in table && table[Seed(m)].expiry == now + (if ttl.Some? then ttl.value else defaultTtl) as real
    {
      table := table[Seed(m) := SlotFor(m, TtlOf(ttl), now)];
      return true;
    }

    method CheckAndMark(m: Message, ttl: Option<int>, now: real) returns (isNew: bool)
      modifies this
      ensures Step(View(), Answer(isNew)) == StepEngine(old(View()), Call(Op.CheckAndMark(m, TtlOf(ttl)), now))
      ensures Seed(m) in table && now < table[Seed(m)].expiry <==> !isNew || (if ttl.Some? then ttl.value else defaultTtl) > 0
      ensures isNew ==> table[Seed(m)].expiry == now + (if ttl.Some? then ttl.value else defaultTtl) as real
    {
      var key := Seed(m);
      checked := checked + 1;
      if key in table {
        if now < table[key].expiry {
          duplicates := duplicates + 1;
          return false;
        }
      }
      table := table[key := SlotFor(m, TtlOf(ttl), now)];
      return true;
    }

    method GetRecord(m: Message, now: real) returns (rec: Option<Record>)
      modifies this
      ensures Step(View(), Found(rec)) == StepEngine(old(View()), Call(Op.GetRecord(m), now))
    {
      var key := Seed(m);
      if key in table && now < table[key].expiry {
        return Some(table[key].record);
      }
      table := table - {key};
      return None;
    }

    method DeleteKeys(keys: set<string>) returns (count: nat)
      requires keys <= table.Keys
      modifies `table
      ensures table == old(table) - keys && count == |keys|
    {
      count := 0;
      var todo := keys;
      while todo != {}
        invariant todo <= keys
        invariant table == old(table) - (keys - todo)
        invariant count + |todo| == |keys|
      {
        var k :| k in todo;
        table := table - {k};
        todo := todo - {k};
        count := count + 1;
      }
    }

    method PruneExpired(now: real) returns (pruned: nat)
      modifies this
      ensures Step(View(), Done) == StepEngine(old(View()), Call(Prune, now))
      ensures pruned == |set k | k in old(table) && !Fresh(old(table), k, now)|
    {
      var expired := set k | k in table && now >= table[k].expiry;
      pruned := DeleteKeys(expired);
      assert table == Unexpired(old(table), now);
      assert expired == set k | k in old(table) && !Fresh(old(table), k, now);
    }

    method Clear(tenant: Option<UuidText>)
      modifies this
      ensures Step(View(), Done) == StepEngine(old(View()), Call(Op.Clear(tenant), 0.0))
    {
      if tenant.None? {
        table := map[];
      } else {
        var _ := DeleteKeys(set k | k in table && table[k].record.tenant == tenant.value);
      }
      assert table == WithoutTenant(old(table), tenant);
    }
  }
}
