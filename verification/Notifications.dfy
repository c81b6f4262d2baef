/** The two gates of the notification engine, a per-tenant sliding-window rate limit and
    duplicate suppression, followed by delivery with retries. Both gates run without an
    await between them, so one `dispatch` passes them as a single step. */
module Notifications {
  import opened Common
  import opened ColonKeys

  datatype Alert = Alert(tenant: string, event: string, incident: Option<string>, message: Option<string>)

  /** `limit` is the configured rate or the engine's default, `window` the suppression
      window in seconds; the two gates read the clock one after the other. */
  datatype Request = Request(alert: Alert, limit: int, window: int, rateAt: real, dedupAt: real)

  datatype Verdict = RateLimited | Suppressed | Passed

  type Records = map<string, seq<real>>

  type Cache = map<string, real>

  datatype Gates = Gates(records: Records, cache: Cache)

  const INITIAL := Gates(map[], map[])

  /** The first non-empty identifier; empty if there is none. */
  function Target(a: Alert): string {
    if a.incident.Some? && a.incident.value != "" then a.incident.value
    else if a.message.Some? then a.message.value
    else ""
  }

  function DedupKey(a: Alert): string {
    a.tenant + ":" + (a.event + ":" + Target(a))
  }

  /** Subject to suppression at all. */
  predicate Suppressible(q: Request) {
    q.window > 0 && Target(q.alert) != ""
  }

  function After(times: seq<real>, t: real): seq<real> {
    if times == [] then []
    else After(times[..|times| - 1], t) + if times[|times| - 1] > t then [times[|times| - 1]] else []
  }

  function RecordsOf(r: Records, tenant: string): seq<real> {
    if tenant in r then r[tenant] else []
  }

  datatype RateResult = RateResult(records: Records, admitted: bool)

  function CheckRate(r: Records, q: Request): RateResult {
    var recent := After(RecordsOf(r, q.alert.tenant), q.rateAt - 60.0);
    if |recent| >= q.limit then RateResult(r[q.alert.tenant := recent], false)
    else RateResult(r[q.alert.tenant := recent + [q.rateAt]], true)
  }

  function Unexpired(c: Cache, now: real): Cache {
    map k | k in c && c[k] > now :: c[k]
  }

  datatype DedupResult = DedupResult(cache: Cache, duplicate: bool)

  function CheckDedup(c: Cache, q: Request): DedupResult {
    if !Suppressible(q) then DedupResult(c, false)
    else
      var live, key := Unexpired(c, q.dedupAt), DedupKey(q.alert);
      if key in live then DedupResult(live, true) else DedupResult(live[key := WindowEnd(q)], false)
  }

  function WindowEnd(q: Request): real {
    q.dedupAt + q.window as real
  }

  datatype PassResult = PassResult(gates: Gates, verdict: Verdict)

  function Pass(g: Gates, q: Request): PassResult {
    var rate := CheckRate(g.records, q);
    if !rate.admitted then PassResult(Gates(rate.records, g.cache), RateLimited)
    else
      var dedup := CheckDedup(g.cache, q);
      PassResult(Gates(rate.records, dedup.cache), if dedup.duplicate then Suppressed else Passed)
  }

  datatype Logged = Logged(q: Request, verdict: Verdict)

  /** Gates and the full log of calls so far. */
  datatype Trace = Trace(gates: Gates, log: seq<Logged>)

  function Process(t: Trace, q: Request): Trace {
    var r := Pass(t.gates, q);
    Trace(r.gates, t.log + [Logged(q, r.verdict)])
  }

  /** The trace of the calls `qs` from an empty engine. */
  function Run(qs: seq<Request>): Trace {
    if qs == [] then Trace(INITIAL, []) else Process(Run(qs[..|qs| - 1]), qs[|qs| - 1])
  }

  /** The clock never runs backwards, within a call or between calls. */
  ghost predicate Clocked(qs: seq<Request>) {
    && (forall i :: 0 <= i < |qs| ==> qs[i].rateAt <= qs[i].dedupAt)
    && (forall i, j :: 0 <= i < j < |qs| ==> qs[i].dedupAt <= qs[j].rateAt)
  }

  lemma {:induction false} LogHoldsCalls(qs: seq<Request>)
    ensures |Run(qs).log| == |qs|
    ensures forall i :: 0 <= i < |qs| ==> Run(qs).log[i].q == qs[i]
    decreases |qs|
  {
    if qs != [] {
      LogHoldsCalls(qs[..|qs| - 1]);
    }
  }

  // ---------- The rate limit against the full history ----------

  /** All admissions of a tenant, never pruned. */
  function Admissions(log: seq<Logged>, tenant: string): seq<real> {
    if log == [] then []
    else
      var e := log[|log| - 1];
      Admissions(log[..|log| - 1], tenant) +
      if e.q.alert.tenant == tenant && e.verdict != RateLimited then [e.q.rateAt] else []
  }

  lemma AdmissionsConcat(log: seq<Logged>, e: Logged, tenant: string)
    ensures
      var h := Admissions(log, tenant);
      Admissions(log + [e], tenant) ==
      if e.q.alert.tenant == tenant && e.verdict != RateLimited then h + [e.q.rateAt] else h
  {
    assert (log + [e])[..|log|] == log;
    assert Admissions(log, tenant) + [] == Admissions(log, tenant);
  }

  lemma AfterConcat(s: seq<real>, x: real, t: real)
    ensures After(s + [x], t) == if x > t then After(s, t) + [x] else After(s, t)
  {
    assert (s + [x])[..|s|] == s;
    assert After(s, t) + [] == After(s, t);
  }

  lemma {:induction false} AfterTwice(s: seq<real>, t: real, u: real)
    requires t <= u
    ensures After(After(s, t), u) == After(s, u)
    decreases |s|
  {
    if s != [] {
      var before, x := s[..|s| - 1], s[|s| - 1];
      AfterTwice(before, t, u);
      if x > t {
        AfterConcat(After(before, t), x, u);
      } else {
        assert After(s, t) == After(before, t) && After(s, u) == After(before, u);
      }
    }
  }

  lemma RateStep(kept: seq<real>, at: real, history: seq<real>, t: real)
    requires at - 60.0 <= t && After(kept, t) == After(history, t)
    ensures After(After(kept, at - 60.0), t) == After(history, t)
    ensures After(After(kept, at - 60.0) + [at], t) == After(history + [at], t)
  {
    AfterTwice(kept, at - 60.0, t);
    AfterConcat(After(kept, at - 60.0), at, t);
    AfterConcat(history, at, t);
  }

  /** What a tenant's records and its full history agree on. */
  ghost predicate AgreeAfter(r: Records, log: seq<Logged>, tenant: string, lo: real) {
    After(RecordsOf(r, tenant), lo) == After(Admissions(log, tenant), lo)
  }

  lemma AgreementOfOthers(r: Records, log: seq<Logged>, e: Logged, tenant: string, lo: real)
    requires e.q.alert.tenant != tenant && AgreeAfter(r, log, tenant, lo)
    ensures AgreeAfter(CheckRate(r, e.q).records, log + [e], tenant, lo)
  {
    AdmissionsConcat(log, e, tenant);
    RecordsOfOthers(r, e.q, tenant);
  }

  lemma RecordsOfOthers(r: Records, q: Request, tenant: string)
    requires q.alert.tenant != tenant
    ensures RecordsOf(CheckRate(r, q).records, tenant) == RecordsOf(r, tenant)
  {
  }

  lemma OwnRecords(r: Records, q: Request)
    ensures
      var recent, rate := After(RecordsOf(r, q.alert.tenant), q.rateAt - 60.0), CheckRate(r, q);
      RecordsOf(rate.records, q.alert.tenant) == if rate.admitted then recent + [q.rateAt] else recent
  {
  }

  lemma AgreementOfOwn(r: Records, log: seq<Logged>, e: Logged, lo: real)
    requires e.q.rateAt - 60.0 <= lo && AgreeAfter(r, log, e.q.alert.tenant, lo)
    requires e.verdict != RateLimited <==> CheckRate(r, e.q).admitted
    ensures AgreeAfter(CheckRate(r, e.q).records, log + [e], e.q.alert.tenant, lo)
  {
    var tenant := e.q.alert.tenant;
    AdmissionsConcat(log, e, tenant);
    OwnRecords(r, e.q);
    RateStep(RecordsOf(r, tenant), e.q.rateAt, Admissions(log, tenant), lo);
  }

  lemma PassRate(g: Gates, q: Request)
    ensures Pass(g, q).gates.records == CheckRate(g.records, q).records
    ensures Pass(g, q).verdict != RateLimited <==> CheckRate(g.records, q).admitted
  {
  }

  /** Pruning drops nothing that is later than a minute ago. */
  lemma {:induction false} RecordsMatchHistory(qs: seq<Request>, tenant: string, lo: real)
    requires forall i :: 0 <= i < |qs| ==> qs[i].rateAt - 60.0 <= lo
    ensures AgreeAfter(Run(qs).gates.records, Run(qs).log, tenant, lo)
    decreases |qs|
  {
    if qs != [] {
      var t, q := Run(qs[..|qs| - 1]), qs[|qs| - 1];
      RecordsMatchHistory(qs[..|qs| - 1], tenant, lo);
      PassRate(t.gates, q);
      if q.alert.tenant == tenant {
        AgreementOfOwn(t.gates.records, t.log, Logged(q, Pass(t.gates, q).verdict), lo);
      } else {
        AgreementOfOthers(t.gates.records, t.log, Logged(q, Pass(t.gates, q).verdict), tenant, lo);
      }
    }
  }

  lemma AdmittedIff(r: Records, log: seq<Logged>, q: Request)
    requires AgreeAfter(r, log, q.alert.tenant, q.rateAt - 60.0)
    ensures CheckRate(r, q).admitted <==> |After(Admissions(log, q.alert.tenant), q.rateAt - 60.0)| < q.limit
  {
  }

  /** A call is refused exactly if the full history holds `limit` admissions of its tenant
      in the minute up to now. */
  lemma {:induction false} RefusedIffMinuteIsFull(before: seq<Request>, q: Request)
    requires Clocked(before + [q])
    ensures Pass(Run(before).gates, q).verdict == RateLimited <==>
            |After(Admissions(Run(before).log, q.alert.tenant), q.rateAt - 60.0)| >= q.limit
  {
    var qs := before + [q];
    assert forall i :: 0 <= i < |before| ==> before[i] == qs[i] && qs[i].dedupAt <= qs[|before|].rateAt;
    RecordsMatchHistory(before, q.alert.tenant, q.rateAt - 60.0);
    PassRate(Run(before).gates, q);
    AdmittedIff(Run(before).gates.records, Run(before).log, q);
  }

  /** Number of times in the interval (a, a + 60]. */
  function InMinute(times: seq<real>, a: real): nat {
    if times == [] then 0
    else InMinute(times[..|times| - 1], a) + if a < times[|times| - 1] <= a + 60.0 then 1 else 0
  }

  lemma InMinuteConcat(times: seq<real>, x: real, a: real)
    ensures InMinute(times + [x], a) == InMinute(times, a) + if a < x <= a + 60.0 then 1 else 0
  {
    assert (times + [x])[..|times|] == times;
  }

  lemma {:induction false} InMinuteAtMostAfter(times: seq<real>, a: real, t: real)
    requires t <= a
    ensures InMinute(times, a) <= |After(times, t)|
    decreases |times|
  {
    if times != [] {
      InMinuteAtMostAfter(times[..|times| - 1], a, t);
    }
  }

  /** Every admission of the tenant found less than `limit` others in the minute before it. */
  ghost predicate Unhurried(log: seq<Logged>, tenant: string, limit: nat) {
    log != [] ==>
      var before, e := log[..|log| - 1], log[|log| - 1];
      && Unhurried(before, tenant, limit)
      && (e.q.alert.tenant == tenant && e.verdict != RateLimited ==>
            |After(Admissions(before, tenant), e.q.rateAt - 60.0)| < limit)
  }

  lemma OneMoreWithinLimit(before: seq<Logged>, e: Logged, tenant: string, limit: nat, a: real)
    requires InMinute(Admissions(before, tenant), a) <= limit
    requires e.q.alert.tenant == tenant && e.verdict != RateLimited ==>
               |After(Admissions(before, tenant), e.q.rateAt - 60.0)| < limit
    ensures InMinute(Admissions(before + [e], tenant), a) <= limit
  {
    AdmissionsConcat(before, e, tenant);
    if e.q.alert.tenant == tenant && e.verdict != RateLimited {
      InMinuteConcat(Admissions(before, tenant), e.q.rateAt, a);
      if a < e.q.rateAt <= a + 60.0 {
        InMinuteAtMostAfter(Admissions(before, tenant), a, e.q.rateAt - 60.0);
      }
    }
  }

  lemma {:induction false} UnhurriedWithinLimit(log: seq<Logged>, tenant: string, limit: nat, a: real)
    requires Unhurried(log, tenant, limit)
    ensures InMinute(Admissions(log, tenant), a) <= limit
    decreases |log|
  {
    if log != [] {
      var before, e := log[..|log| - 1], log[|log| - 1];
      assert before + [e] == log;
      UnhurriedWithinLimit(before, tenant, limit, a);
      OneMoreWithinLimit(before, e, tenant, limit, a);
    }
  }

  lemma UnhurriedConcat(log: seq<Logged>, e: Logged, tenant: string, limit: nat)
    requires Unhurried(log, tenant, limit)
    requires e.q.alert.tenant == tenant && e.verdict != RateLimited ==>
               |After(Admissions(log, tenant), e.q.rateAt - 60.0)| < limit
    ensures Unhurried(log + [e], tenant, limit)
  {
    assert (log + [e])[..|log|] == log;
  }

  lemma AdmittedIsUnhurried(before: seq<Request>, q: Request, tenant: string, limit: nat)
    requires Clocked(before + [q]) && Unhurried(Run(before).log, tenant, limit)
    requires q.alert.tenant == tenant ==> q.limit <= limit
    ensures Unhurried(Run(before).log + [Logged(q, Pass(Run(before).gates, q).verdict)], tenant, limit)
  {
    var log, e := Run(before).log, Logged(q, Pass(Run(before).gates, q).verdict);
    RefusedIffMinuteIsFull(before, q);
    assert e.q == q;
    UnhurriedConcat(log, e, tenant, limit);
  }

  lemma LogGrows(qs: seq<Request>)
    requires qs != []
    ensures
      var before, q := qs[..|qs| - 1], qs[|qs| - 1];
      Run(qs).log == Run(before).log + [Logged(q, Pass(Run(before).gates, q).verdict)] && qs == before + [q]
  {
  }

  lemma {:induction false} RunIsUnhurried(qs: seq<Request>, tenant: string, limit: nat)
    requires Clocked(qs)
    requires forall i :: 0 <= i < |qs| && qs[i].alert.tenant == tenant ==> qs[i].limit <= limit
    ensures Unhurried(Run(qs).log, tenant, limit)
    decreases |qs|
  {
    if qs != [] {
      RunIsUnhurried(qs[..|qs| - 1], tenant, limit);
      LogGrows(qs);
      AdmittedIsUnhurried(qs[..|qs| - 1], qs[|qs| - 1], tenant, limit);
    }
  }

  /** With a fixed limit, no interval of a minute, wherever it starts, holds more than
      `limit` admissions of a tenant. */
  lemma {:induction false} EveryMinuteWithinLimit(qs: seq<Request>, tenant: string, limit: nat, a: real)
    requires Clocked(qs)
    requires forall i :: 0 <= i < |qs| && qs[i].alert.tenant == tenant ==> qs[i].limit <= limit
    ensures InMinute(Admissions(Run(qs).log, tenant), a) <= limit
  {
    RunIsUnhurried(qs, tenant, limit);
    UnhurriedWithinLimit(Run(qs).log, tenant, limit, a);
  }

  // ---------- Suppression against the full history ----------

  /** Call `i` passed both gates and opened a suppression window under `key`. What the
      channels then made of it plays no part. */
  ghost predicate Opens(log: seq<Logged>, i: int, key: string) {
    0 <= i < |log| && log[i].verdict == Passed && Suppressible(log[i].q) && DedupKey(log[i].q.alert) == key
  }

  /** The cache holds nothing but windows opened by alerts that passed, and every such
      window that is still open. */
  ghost predicate CacheMatches(c: Cache, log: seq<Logged>, now: real) {
    && (forall k :: k in c ==> exists i :: Opens(log, i, k) && c[k] == WindowEnd(log[i].q))
    && (forall i, k :: Opens(log, i, k) && WindowEnd(log[i].q) > now ==> k in c && c[k] == WindowEnd(log[i].q))
  }

  lemma UnexpiredMatches(c: Cache, log: seq<Logged>, t: real, now: real)
    requires CacheMatches(c, log, t) && t <= now
    ensures CacheMatches(Unexpired(c, now), log, now) && CacheMatches(c, log, now)
  {
  }

  lemma LoggedMatches(c: Cache, log: seq<Logged>, now: real, e: Logged)
    requires CacheMatches(c, log, now)
    requires e.verdict == Passed && Suppressible(e.q) ==> DedupKey(e.q.alert) !in c
    ensures CacheMatches(if e.verdict == Passed && Suppressible(e.q) then c[DedupKey(e.q.alert) := WindowEnd(e.q)] else c,
                         log + [e], now)
  {
    var log', n, key := log + [e], |log|, DedupKey(e.q.alert);
    var opens := e.verdict == Passed && Suppressible(e.q);
    var c' := if opens then c[key := WindowEnd(e.q)] else c;
    forall k | k in c'
      ensures exists i :: Opens(log', i, k) && c'[k] == WindowEnd(log'[i].q)
    {
      if opens && k == key {
        assert Opens(log', n, k);
      } else {
        var i :| Opens(log, i, k) && c[k] == WindowEnd(log[i].q);
        assert log'[i] == log[i] && Opens(log', i, k);
      }
    }
    forall i, k | Opens(log', i, k) && WindowEnd(log'[i].q) > now
      ensures k in c' && c'[k] == WindowEnd(log'[i].q)
    {
      if i < n {
        assert log'[i] == log[i] && Opens(log, i, k);
      }
    }
  }

  lemma PassMatches(t: Trace, q: Request)
    requires CacheMatches(t.gates.cache, t.log, q.dedupAt)
    ensures CacheMatches(Process(t, q).gates.cache, Process(t, q).log, q.dedupAt)
  {
    var c, r := t.gates.cache, Pass(t.gates, q);
    UnexpiredMatches(c, t.log, q.dedupAt, q.dedupAt);
    if r.verdict == Suppressed || (r.verdict == Passed && Suppressible(q)) {
      LoggedMatches(Unexpired(c, q.dedupAt), t.log, q.dedupAt, Logged(q, r.verdict));
    } else {
      LoggedMatches(c, t.log, q.dedupAt, Logged(q, r.verdict));
    }
  }

  lemma {:induction false} CacheMatchesHistory(qs: seq<Request>, now: real)
    requires Clocked(qs) && forall i :: 0 <= i < |qs| ==> qs[i].dedupAt <= now
    ensures CacheMatches(Run(qs).gates.cache, Run(qs).log, now)
    decreases |qs|
  {
    if qs != [] {
      var before, q := qs[..|qs| - 1], qs[|qs| - 1];
      CacheMatchesHistory(before, q.dedupAt);
      PassMatches(Run(before), q);
      UnexpiredMatches(Run(qs).gates.cache, Run(qs).log, q.dedupAt, now);
    }
  }

  /** An earlier alert with the same key passed both gates and opened a window that is still open. */
  ghost predicate HasWitness(log: seq<Logged>, q: Request) {
    exists i :: Opens(log, i, DedupKey(q.alert)) && q.dedupAt < log[i].q.dedupAt + log[i].q.window as real
  }

  lemma DuplicateIffWitness(c: Cache, log: seq<Logged>, q: Request)
    requires CacheMatches(c, log, q.dedupAt) && Suppressible(q)
    ensures CheckDedup(c, q).duplicate <==> HasWitness(log, q)
  {
    var key := DedupKey(q.alert);
    if key in c {
      var i :| Opens(log, i, key) && c[key] == WindowEnd(log[i].q);
    }
  }

  /** An alert is suppressed exactly if it passes the rate gate, can be suppressed at all,
      and has a witness; the log that names the witness holds the earlier calls in order. */
  lemma {:induction false} SuppressedIffWitness(before: seq<Request>, q: Request)
    requires Clocked(before + [q])
    ensures
      var verdict := Pass(Run(before).gates, q).verdict;
      verdict == Suppressed <==> verdict != RateLimited && Suppressible(q) && HasWitness(Run(before).log, q)
    ensures |Run(before).log| == |before| && forall i :: 0 <= i < |before| ==> Run(before).log[i].q == before[i]
  {
    LogHoldsCalls(before);
    var qs := before + [q];
    assert forall i :: 0 <= i < |before| ==> before[i] == qs[i];
    assert qs[|before|] == q;
    CacheMatchesHistory(before, q.dedupAt);
    if Suppressible(q) {
      DuplicateIffWitness(Run(before).gates.cache, Run(before).log, q);
    }
  }

  /** An alert can be suppressed if it names an incident or a message and the tenant has a
      suppression window. A named incident is what repetitions are told by, the message only
      if there is none. */
  lemma {:induction false} RepetitionIsOfIncidentOrMessage(q: Request, a: Alert, b: Alert)
    requires a.tenant == b.tenant && a.event == b.event
    ensures Suppressible(q) <==>
            && q.window > 0
            && (q.alert.incident.None? || q.alert.incident.value == "" ==> q.alert.message.Some? && q.alert.message.value != "")
    ensures a.incident == b.incident && a.incident.Some? && a.incident.value != "" ==> DedupKey(a) == DedupKey(b)
    ensures a.incident.None? && b.incident.None? && a.message.Some? && b.message.Some? ==>
              (DedupKey(a) == DedupKey(b) <==> a.message == b.message)
    ensures a.incident == Some("") && b.incident.None? && a.message == b.message ==> DedupKey(a) == DedupKey(b)
    ensures DedupKey(a) == a.tenant + ":" + (a.event + ":" + Target(a))
  {
    if a.incident.None? && b.incident.None? && a.message.Some? && b.message.Some? && DedupKey(a) == DedupKey(b) {
      var before := a.tenant + ":" + (a.event + ":");
      assert DedupKey(a) == before + a.message.value && DedupKey(b) == before + b.message.value;
      assert DedupKey(a)[|before|..] == a.message.value && DedupKey(b)[|before|..] == b.message.value;
    }
  }

  /** Calls that are refused or suppressed never create or extend a window. */
  lemma OnlyPassingOpensWindows(g: Gates, q: Request, key: string)
    requires Pass(g, q).verdict != Passed && key in Pass(g, q).gates.cache
    ensures key in g.cache && Pass(g, q).gates.cache[key] == g.cache[key]
  {
  }

  /** `again` repeats `q` while the window that `q` opens is open. */
  predicate Repeats(q: Request, again: Request) {
    && Suppressible(q) && Suppressible(again) && DedupKey(again.alert) == DedupKey(q.alert)
    && again.dedupAt < WindowEnd(q)
  }

  /** No repetition of `q` gets through. */
  ghost predicate Silences(g: Gates, q: Request) {
    forall again :: Repeats(q, again) ==> Pass(g, again).verdict != Passed
  }

  lemma PassedSilences(g: Gates, q: Request)
    requires Pass(g, q).verdict == Passed
    ensures Silences(Pass(g, q).gates, q)
  {
    if Suppressible(q) {
      var c := Pass(g, q).gates.cache;
      assert DedupKey(q.alert) in c && c[DedupKey(q.alert)] == WindowEnd(q);
    }
  }

  lemma RunConcat(qs: seq<Request>, q: Request)
    ensures Run(qs + [q]) == Process(Run(qs), q)
  {
    assert (qs + [q])[..|qs|] == qs;
  }

  /** An entry of the log stays where it is. */
  lemma {:induction false} EntryStays(before: seq<Request>, q: Request, between: seq<Request>)
    ensures |before| < |Run(before + [q] + between).log|
    ensures Run(before + [q] + between).log[|before|] == Logged(q, Pass(Run(before).gates, q).verdict)
    decreases |between|
  {
    if between == [] {
      assert before + [q] + between == before + [q];
      LogHoldsCalls(before);
      RunConcat(before, q);
    } else {
      var n := |between| - 1;
      EntryStays(before, q, between[..n]);
      SplitLast(before + [q], between);
      RunConcat(before + [q] + between[..n], between[n]);
    }
  }

  /** The window opens before any channel is tried. So an alert that passes the gates and
      then fails on every channel silences its repetitions all the same, whatever calls
      come in between: each is refused by the rate gate or suppressed. */
  lemma {:induction false} UndeliveredAlertSuppresses(before: seq<Request>, q: Request, between: seq<Request>, again: Request)
    requires Clocked(before + [q] + between + [again])
    requires Pass(Run(before).gates, q).verdict == Passed && Repeats(q, again)
    ensures
      var verdict := Pass(Run(before + [q] + between).gates, again).verdict;
      verdict == RateLimited || verdict == Suppressed
  {
    var qs, i := before + [q] + between, |before|;
    SuppressedIffWitness(qs, again);
    EntryStays(before, q, between);
    assert Opens(Run(qs).log, i, DedupKey(again.alert));
  }

  function Parts(a: Alert): seq<string> {
    [a.tenant, a.event, Target(a)]
  }

  /** An alert with the given parts. */
  function AlertOf(ps: seq<string>): (a: Alert)
    requires |ps| == 3
    ensures Parts(a) == ps
  {
    Alert(ps[0], ps[1], None, Some(ps[2]))
  }

  lemma KeyIsJoin(a: Alert)
    ensures DedupKey(a) == Join(Parts(a))
  {
    JoinThree(a.tenant, a.event, Target(a));
  }

  /** An alert shares its key with no alert of another tenant, event or target exactly if
      none of the three holds a ':'. */
  lemma {:induction false} KeySeparatesIff(a: Alert)
    ensures (forall b :: DedupKey(b) == DedupKey(a) ==> Parts(b) == Parts(a)) <==>
            ':' !in a.tenant && ':' !in a.event && ':' !in Target(a)
  {
    var ps := Parts(a);
    OnlySplitIff(ps);
    forall b
      ensures DedupKey(b) == Join(Parts(b))
    {
      KeyIsJoin(b);
    }
    assert ps[0] == a.tenant && ps[1] == a.event && ps[2] == Target(a);
    if !OnlySplit(ps) {
      var qs: seq<string> :| |qs| == |ps| && Join(qs) == Join(ps) && qs != ps;
      assert Parts(AlertOf(qs)) == qs;
      assert DedupKey(AlertOf(qs)) == DedupKey(a);
    }
  }

  /** Parts of an alert with a target, the last character of the target left off. */
  function Stem(a: Alert): seq<string>
    requires Target(a) != ""
  {
    [a.tenant, a.event, Target(a)[..|Target(a)| - 1]]
  }

  lemma KeyIsStemAndLast(a: Alert)
    requires Target(a) != ""
    ensures DedupKey(a) == Join(Stem(a)) + [Target(a)[|Target(a)| - 1]]
  {
    var t := Target(a);
    JoinThree(a.tenant, a.event, t[..|t| - 1]);
    assert t == t[..|t| - 1] + [t[|t| - 1]];
  }

  lemma SameLast(x: string, c: char, y: string, d: char)
    ensures x + [c] == y + [d] <==> x == y && c == d
  {
    if x + [c] == y + [d] {
      assert x == (x + [c])[..|x|] && y == (y + [d])[..|y|];
      assert (x + [c])[|x|] == c && (y + [d])[|y|] == d;
    }
  }

  lemma SameKeyIff(a: Alert, b: Alert)
    requires Target(a) != "" && Target(b) != ""
    ensures DedupKey(a) == DedupKey(b) <==>
            Join(Stem(a)) == Join(Stem(b)) && Target(a)[|Target(a)| - 1] == Target(b)[|Target(b)| - 1]
  {
    KeyIsStemAndLast(a);
    KeyIsStemAndLast(b);
    SameLast(Join(Stem(a)), Target(a)[|Target(a)| - 1], Join(Stem(b)), Target(b)[|Target(b)| - 1]);
  }

  lemma SamePartsIff(a: Alert, b: Alert)
    requires Target(a) != "" && Target(b) != ""
    ensures Parts(a) == Parts(b) <==> Stem(a) == Stem(b) && Target(a)[|Target(a)| - 1] == Target(b)[|Target(b)| - 1]
  {
    var t, u := Target(a), Target(b);
    SameLast(t[..|t| - 1], t[|t| - 1], u[..|u| - 1], u[|u| - 1]);
    assert t == t[..|t| - 1] + [t[|t| - 1]] && u == u[..|u| - 1] + [u[|u| - 1]];
    assert Parts(a)[0] == a.tenant && Parts(a)[1] == a.event && Parts(a)[2] == t;
    assert Stem(a)[0] == a.tenant && Stem(a)[1] == a.event && Stem(a)[2] == t[..|t| - 1];
    assert Parts(b)[0] == b.tenant && Parts(b)[1] == b.event && Parts(b)[2] == u;
    assert Stem(b)[0] == b.tenant && Stem(b)[1] == b.event && Stem(b)[2] == u[..|u| - 1];
  }

  /** Only alerts with a target are ever suppressed, and among those a ':' at the very end
      of the target does no harm. */
  lemma {:induction false} SuppressionSeparatesIff(a: Alert)
    requires Target(a) != ""
    ensures (forall b :: Target(b) != "" && DedupKey(b) == DedupKey(a) ==> Parts(b) == Parts(a)) <==>
            ':' !in a.tenant && ':' !in a.event && ':' !in Target(a)[..|Target(a)| - 1]
  {
    var ps, last := Stem(a), Target(a)[|Target(a)| - 1];
    OnlySplitIff(ps);
    assert ps[0] == a.tenant && ps[1] == a.event && ps[2] == Target(a)[..|Target(a)| - 1];
    if OnlySplit(ps) {
      forall b | Target(b) != "" && DedupKey(b) == DedupKey(a)
        ensures Parts(b) == Parts(a)
      {
        SameKeyIff(a, b);
        SamePartsIff(a, b);
      }
    } else {
      var qs: seq<string> :| |qs| == |ps| && Join(qs) == Join(ps) && qs != ps;
      var b := AlertOf([qs[0], qs[1], qs[2] + [last]]);
      StemOf(qs, last);
      SameKeyIff(a, b);
      SamePartsIff(a, b);
    }
  }

  lemma StemOf(qs: seq<string>, last: char)
    requires |qs| == 3
    ensures
      var b := AlertOf([qs[0], qs[1], qs[2] + [last]]);
      Target(b) != "" && Stem(b) == qs && Target(b)[|Target(b)| - 1] == last
  {
    assert (qs[2] + [last])[..|qs[2]|] == qs[2];
  }

  /** Keys tell alerts apart when tenant and event names hold no ':'. */
  lemma {:induction false} KeySeparatesAlerts(a: Alert, b: Alert)
    requires ':' !in a.tenant + a.event && ':' !in b.tenant + b.event
    ensures DedupKey(a) == DedupKey(b) <==> a.tenant == b.tenant && a.event == b.event && Target(a) == Target(b)
  {
    ColonSplits(a.tenant, a.event + ":" + Target(a), b.tenant, b.event + ":" + Target(b));
    ColonSplits(a.event, Target(a), b.event, Target(b));
  }

  /** Otherwise alerts of different tenants can share a key. */
  lemma {:induction false} KeyCollision(x: string, y: string, z: string, id: string)
    requires id != ""
    ensures DedupKey(Alert(x + ":" + y, z, Some(id), None)) == DedupKey(Alert(x, y + ":" + z, Some(id), None))
  {
    assert (x + ":" + y) + ":" + (z + ":" + id) == x + ":" + ((y + ":" + z) + ":" + id);
  }

  // ---------- Delivery ----------

  datatype Status = DELIVERED | FAILED | RATE_LIMITED | SUPPRESSED | SKIPPED

  /** One `send_async`: it returns a status or raises. */
  datatype SendOutcome = Returned(status: Status) | Raised

  datatype DeliveryResult = DeliveryResult(status: Status, retries: int)

  predicate Settles(o: SendOutcome) {
    o == Returned(DELIVERED) || o == Returned(SKIPPED)
  }

  function StatusOf(o: SendOutcome): Status {
    match o case Returned(s) => s case Raised => FAILED
  }

  function Wait(backoff: real, k: nat): (w: real)
    ensures backoff >= 0.0 ==> w >= 0.0
  {
    backoff * Pow2(k) as real
  }

  /** Base waiting time before the attempt after `k` failed ones, jitter aside. */
  function Waits(backoff: real, k: nat): real {
    if k == 0 then 0.0 else Waits(backoff, k - 1) + Wait(backoff, k - 1)
  }

  /** The sum of `k` backoffs, each twice the one before. */
  function DoubledBackoffs(backoff: real, k: nat): real {
    backoff * (Pow2(k) as real - 1.0)
  }

  lemma {:induction false} WaitsClosedForm(backoff: real, k: nat)
    ensures Waits(backoff, k) == DoubledBackoffs(backoff, k)
  {
    if k > 0 {
      WaitsClosedForm(backoff, k - 1);
      var p := Pow2(k - 1) as real;
      assert Pow2(k) as real == 2.0 * p;
      assert backoff * (2.0 * p - 1.0) == backoff * (p - 1.0) + backoff * p;
    }
  }

  /** Slept for `k` backoffs with 5% to 20% jitter on each. */
  predicate SleptFor(slept: real, backoff: real, k: nat) {
    1.05 * Waits(backoff, k) <= slept <= 1.2 * Waits(backoff, k)
  }

  function Jitter(factor: real, wait: real): (extra: real)
    requires wait >= 0.0 && 0.05 <= factor <= 0.2
    ensures 0.05 * wait <= extra <= 0.2 * wait
  {
    factor * wait
  }

  lemma SleepOnce(slept: real, backoff: real, k: nat, wait: real, extra: real)
    requires wait == Wait(backoff, k) && 0.05 * wait <= extra <= 0.2 * wait && SleptFor(slept, backoff, k)
    ensures SleptFor(slept + wait + extra, backoff, k + 1)
  {
    assert Waits(backoff, k + 1) == Waits(backoff, k) + wait;
  }

  /** `outcomes[i]` and `jitters[i]` are what attempt `i` and the sleep after it would do.
      None is the validation error of a result with a negative retry count. */
  method SendWithRetries(outcomes: seq<SendOutcome>, jitters: seq<real>, maxRetries: int, backoff: real)
    returns (r: Option<DeliveryResult>, attempts: nat, slept: real)
    requires |outcomes| > maxRetries && |jitters| > maxRetries && backoff >= 0.0
    requires forall i :: 0 <= i < |jitters| ==> 0.05 <= jitters[i] <= 0.2
    ensures r.None? <==> maxRetries < 0
    ensures attempts <= maxRetries + 1 || attempts == 0
    // No attempt before the last one delivered or skipped.
    ensures forall i :: 0 <= i < attempts - 1 ==> outcomes[i] != Returned(DELIVERED) && outcomes[i] != Returned(SKIPPED)
    // The result is that of the last attempt: a status is passed on, an exception counts as failed.
    ensures r.Some? ==> attempts > 0 && r.value.retries == attempts - 1
    ensures r.Some? && outcomes[attempts - 1].Returned? ==> r.value.status == outcomes[attempts - 1].status
    ensures r.Some? && outcomes[attempts - 1].Raised? ==> r.value.status == FAILED
    ensures r.Some? ==> (r.value.status == DELIVERED <==> outcomes[attempts - 1] == Returned(DELIVERED))
    // Giving up takes all attempts.
    ensures r.Some? && outcomes[attempts - 1] != Returned(DELIVERED) && outcomes[attempts - 1] != Returned(SKIPPED) ==>
              attempts == maxRetries + 1
    // The sleeps add up to the doubled backoffs, with 5% to 20% jitter on each.
    ensures attempts > 0 ==>
              1.05 * DoubledBackoffs(backoff, attempts - 1) <= slept <= 1.2 * DoubledBackoffs(backoff, attempts - 1)
  {
    var attempt := 0;
    var last: Option<DeliveryResult> := None;
    slept := 0.0;
    while attempt <= maxRetries
      invariant 0 <= attempt && (attempt <= maxRetries + 1 || attempt == 0)
      invariant forall i :: 0 <= i < attempt ==> !Settles(outcomes[i])
      invariant last == if attempt == 0 then None else Some(DeliveryResult(StatusOf(outcomes[attempt - 1]), attempt - 1))
      invariant
        var k := if attempt <= maxRetries || attempt == 0 then attempt else attempt - 1;
        SleptFor(slept, backoff, k)
      decreases maxRetries - attempt
    {
      var o := outcomes[attempt];
      if Settles(o) {
        WaitsClosedForm(backoff, attempt);
        return Some(DeliveryResult(o.status, attempt)), attempt + 1, slept;
      }
      last := Some(DeliveryResult(StatusOf(o), attempt));
      attempt := attempt + 1;
      if attempt <= maxRetries {
        var wait := Wait(backoff, attempt - 1);
        var extra := Jitter(jitters[attempt], wait);
        SleepOnce(slept, backoff, attempt - 1, wait, extra);
        slept := slept + wait + extra;
      }
    }
    if attempt > 0 {
      WaitsClosedForm(backoff, attempt - 1);
    }
    return last, attempt, slept;
  }

  // ---------- The engine object ----------

  /** Channels with a given outcome, in order. */
  function WithStatus(results: seq<(string, DeliveryResult)>, s: Status): seq<string> {
    if results == [] then []
    else WithStatus(results[..|results| - 1], s) +
         if results[|results| - 1].1.status == s then [results[|results| - 1].0] else []
  }

  /** `idx` lists in order the positions of all results with status `s`, `channels` their channels. */
  ghost predicate Picks(results: seq<(string, DeliveryResult)>, s: Status, channels: seq<string>, idx: seq<nat>) {
    && |idx| == |channels|
    && (forall i, j :: 0 <= i < j < |idx| ==> idx[i] < idx[j])
    && (forall i :: 0 <= i < |idx| ==> idx[i] < |results| && results[idx[i]].1.status == s && channels[i] == results[idx[i]].0)
    && (forall k :: 0 <= k < |results| && results[k].1.status == s ==> k in idx)
  }

  lemma PicksOneMore(before: seq<(string, DeliveryResult)>, last: (string, DeliveryResult), s: Status, channels: seq<string>, idx: seq<nat>)
    requires Picks(before, s, channels, idx)
    ensures last.1.status == s ==> Picks(before + [last], s, channels + [last.0], idx + [|before|])
    ensures last.1.status != s ==> Picks(before + [last], s, channels, idx)
  {
    var all, idx' := before + [last], idx + [|before|];
    assert idx'[|idx|] == |before|;
    forall k | 0 <= k < |all| && all[k].1.status == s
      ensures if last.1.status == s then k in idx' else k in idx
    {
      assert k < |before| ==> before[k] == all[k] && k in idx;
    }
  }

  lemma {:induction false} WithStatusPicks(results: seq<(string, DeliveryResult)>, s: Status) returns (idx: seq<nat>)
    ensures Picks(results, s, WithStatus(results, s), idx)
    decreases |results|
  {
    idx := [];
    if results != [] {
      var before, last := results[..|results| - 1], results[|results| - 1];
      idx := WithStatusPicks(before, s);
      PicksOneMore(before, last, s, WithStatus(before, s), idx);
      assert results == before + [last];
      if last.1.status == s {
        idx := idx + [|before|];
      }
      assert WithStatus(before, s) + [] == WithStatus(before, s);
    }
  }

  /** `channels` are the channels of all results with status `s`, in order. */
  ghost predicate Picked(results: seq<(string, DeliveryResult)>, s: Status, channels: seq<string>) {
    exists idx :: Picks(results, s, channels, idx)
  }

  lemma StatusesArePicked(results: seq<(string, DeliveryResult)>)
    ensures forall s :: Picked(results, s, WithStatus(results, s))
  {
    forall s
      ensures Picked(results, s, WithStatus(results, s))
    {
      var idx := WithStatusPicks(results, s);
    }
  }

  datatype Metrics = Metrics(dispatched: nat, delivered: nat, failed: nat, suppressed: nat, rateLimited: nat)

  class NotificationEngine {
    var records: Records
    var cache: Cache
    var metrics: Metrics

    ghost function View(): Gates
      reads this
    {
      Gates(records, cache)
    }

    constructor ()
      ensures View() == INITIAL && metrics == Metrics(0, 0, 0, 0, 0)
    {
      records, cache, metrics := map[], map[], Metrics(0, 0, 0, 0, 0);
    }

    method CheckRateLimit(q: Request) returns (allowed: bool)
      modifies `records
      ensures RateResult(records, allowed) == CheckRate(old(records), q)
    {
      var tenant := q.alert.tenant;
      var all := RecordsOf(records, tenant);
      var recent: seq<real> := [];
      for i := 0 to |all|
        invariant recent == After(all[..i], q.rateAt - 60.0)
      {
        assert all[..i + 1][..i] == all[..i];
        if all[i] > q.rateAt - 60.0 {
          recent := recent + [all[i]];
        }
      }
      assert all[..|all|] == all;
      records := records[tenant := recent];
      if |recent| >= q.limit {
        return false;
      }
      records := records[tenant := recent + [q.rateAt]];
      return true;
    }

    method CheckAndUpdateDedup(q: Request) returns (dup: bool)
      modifies `cache
      ensures DedupResult(cache, dup) == CheckDedup(old(cache), q)
    {
      if q.window <= 0 || Target(q.alert) == "" {
        return false;
      }
      cache := Unexpired(cache, q.dedupAt);
      var key := DedupKey(q.alert);
      if key in cache {
        return true;
      }
      cache := cache[key := WindowEnd(q)];
      return false;
    }

    /** `targets` are the requested channels, `results` what the active ones would report. */
    method Dispatch(q: Request, targets: seq<string>, results: seq<(string, DeliveryResult)>)
      returns (verdict: Verdict, delivered: seq<string>, failed: seq<string>)
      modifies this
      ensures PassResult(View(), verdict) == Pass(old(View()), q)
      ensures delivered == if verdict == Passed then WithStatus(results, DELIVERED) else []
      ensures verdict == Passed ==> Picked(results, DELIVERED, delivered) && Picked(results, FAILED, failed)
      // With `delivered` empty as well.
      ensures verdict == Passed ==> Silences(View(), q)
      ensures failed == if verdict == Passed then WithStatus(results, FAILED) else if verdict == RateLimited then targets else []
      ensures
        var m := old(metrics);
        metrics == Metrics(m.dispatched + 1, m.delivered + |delivered|, m.failed + (if verdict == Passed then |failed| else 0),
                           m.suppressed + (if verdict == Suppressed then 1 else 0),
                           m.rateLimited + (if verdict == RateLimited then 1 else 0))
    {
      delivered, failed := [], [];
      metrics := metrics.(dispatched := metrics.dispatched + 1);
      var allowed := CheckRateLimit(q);
      if !allowed {
        metrics := metrics.(rateLimited := metrics.rateLimited + 1);
        verdict, failed := RateLimited, targets;
        return;
      }
      var dup := CheckAndUpdateDedup(q);
      if dup {
        metrics := metrics.(suppressed := metrics.suppressed + 1);
        verdict := Suppressed;
        return;
      }
      verdict := Passed;
      ghost var start := metrics;
      for i := 0 to |results|
        invariant delivered == WithStatus(results[..i], DELIVERED) && failed == WithStatus(results[..i], FAILED)
        invariant metrics == start.(delivered := start.delivered + |delivered|, failed := start.failed + |failed|)
        invariant View() == Pass(old(View()), q).gates
      {
        assert results[..i + 1][..i] == results[..i];
        var (channel, result) := results[i];
        if result.status == DELIVERED {
          delivered := delivered + [channel];
          metrics := metrics.(delivered := metrics.delivered + 1);
        } else if result.status == FAILED {
          failed := failed + [channel];
          metrics := metrics.(failed := metrics.failed + 1);
        }
      }
      assert results[..|results|] == results;
      PassedSilences(old(View()), q);
      StatusesArePicked(results);
    }
  }
}
