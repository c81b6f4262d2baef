/** Timing of retries: the spacing of failures in an unbroken streak, and what happens
    when the power in the backoff formula overflows. */
module CoordinatorBackoff {
  import opened Common
  import opened Registry
  import opened Coordinator
  import opened CoordinatorSafety

  /** Longest streak whose last delay can still be computed. */
  const LIMIT: nat := MAX_EXPONENT + 1

  // ---------- Failure streaks ----------

  /** Times of the failures of account `k` since its last success or termination. */
  function StreakVisits(streak: seq<real>, s: State, visits: seq<Visit>, now: real, k: AccountKey): seq<real>
    decreases |visits|
  {
    if visits == [] then streak
    else
      var streak' := StreakVisit(streak, s, visits[0], now, k);
      var step := Reconcile(s, visits[0], now);
      if step.raised then streak' else StreakVisits(streak', step.state, visits[1..], now, k)
  }

  function StreakVisit(streak: seq<real>, s: State, v: Visit, now: real, k: AccountKey): seq<real> {
    if v.account.key != k then streak
    else match Decide(s, v, now)
      case Failed(_) => streak + [now]
      case Spawned => []
      case Restarted => []
      case _ => streak
  }

  function StreakSweep(streak: seq<real>, s: State, input: SweepInput, k: AccountKey): seq<real> {
    var active := ActiveVisits(input.visits);
    var streak0 := if k in KeysOf(Orphans(s, Keys(active))) then [] else streak;
    StreakVisits(streak0, Swept(s, active), active, input.now, k)
  }

  function StreakRun(streak: seq<real>, s: State, sweeps: seq<SweepInput>, k: AccountKey): seq<real>
    decreases |sweeps|
  {
    if sweeps == [] then streak
    else StreakRun(StreakSweep(streak, s, sweeps[0], k), Sweep(s, sweeps[0]).state, sweeps[1..], k)
  }

  /** The counter is the length of the streak, the retry time is one delay after its last
      failure, and each gap is at least the delay of the failure before it. Both timing
      parts cover the failures whose delay could be computed. */
  ghost predicate StreakOk(streak: seq<real>, s: State, k: AccountKey, clock: real) {
    var n := |streak|;
    && Lookup(s.failures, k) == (if n == 0 then None else Some(n))
    && (n > 0 ==> Lookup(s.nextRetry, k) == Some(streak[(if n <= LIMIT then n else LIMIT) - 1] + Delay(if n <= LIMIT then n else LIMIT)))
    && (n == 0 ==> k !in s.nextRetry)
    && (forall i :: 0 <= i < n ==> streak[i] <= clock)
    && Spaced(streak)
  }

  ghost predicate Spaced(streak: seq<real>) {
    forall i :: 0 < i < |streak| && i <= LIMIT ==> streak[i - 1] + Delay(i) <= streak[i]
  }

  lemma StreakOkFailure(streak: seq<real>, s: State, k: AccountKey, now: real)
    requires StreakOk(streak, s, k, now) && (k in s.nextRetry ==> s.nextRetry[k] <= now)
    ensures StreakOk(streak + [now], FailureRecorded(s, k, now).state, k, now)
  {
    var n, t := |streak|, streak + [now];
    if n > 0 {
      assert Lookup(s.nextRetry, k) == Some(s.nextRetry[k]);
      assert n <= LIMIT ==> streak[n - 1] + Delay(n) <= now;
    }
    assert Spaced(t);
    assert Lookup(s.failures, k) == if n == 0 then None else Some(n);
    assert Lookup(FailureRecorded(s, k, now).state.failures, k) == Some(n + 1);
  }

  lemma SameLedgerSameStreak(streak: seq<real>, s: State, s': State, k: AccountKey, clock: real)
    requires StreakOk(streak, s, k, clock)
    requires Lookup(s'.failures, k) == Lookup(s.failures, k) && Lookup(s'.nextRetry, k) == Lookup(s.nextRetry, k)
    ensures StreakOk(streak, s', k, clock)
  {
  }

  /** What a visit does to the failure count and retry time of its own account. */
  lemma LedgerAfter(s: State, v: Visit, now: real)
    ensures
      var s', k := Reconcile(s, v, now).state, v.account.key;
      match Decide(s, v, now)
      case Failed(_) => s'.failures == FailureRecorded(s, k, now).state.failures && s'.nextRetry == FailureRecorded(s, k, now).state.nextRetry
      case Spawned => k !in s'.failures && k !in s'.nextRetry
      case Restarted => k !in s'.failures && k !in s'.nextRetry
      case _ => s' == s
  {
  }

  lemma StreakOkVisit(streak: seq<real>, s: State, v: Visit, now: real, k: AccountKey)
    requires StreakOk(streak, s, k, now)
    ensures StreakOk(StreakVisit(streak, s, v, now, k), Reconcile(s, v, now).state, k, now)
  {
    var s' := Reconcile(s, v, now).state;
    if v.account.key != k {
      VisitIsLocal(s, v, now, k);
      SameLedgerSameStreak(streak, s, s', k, now);
    } else {
      LedgerAfter(s, v, now);
      if Decide(s, v, now).Failed? {
        StreakOkFailure(streak, s, k, now);
        SameLedgerSameStreak(streak + [now], FailureRecorded(s, k, now).state, s', k, now);
      }
    }
  }

  lemma {:induction false} StreakOkVisits(streak: seq<real>, s: State, visits: seq<Visit>, now: real, k: AccountKey)
    requires StreakOk(streak, s, k, now)
    ensures StreakOk(StreakVisits(streak, s, visits, now, k), ReconcileAll(s, visits, now).state, k, now)
    decreases |visits|
  {
    if visits != [] {
      StreakOkVisit(streak, s, visits[0], now, k);
      var step := Reconcile(s, visits[0], now);
      if !step.raised {
        StreakOkVisits(StreakVisit(streak, s, visits[0], now, k), step.state, visits[1..], now, k);
      }
    }
  }

  function EndOf(clock: real, sweeps: seq<SweepInput>): real {
    if sweeps == [] then clock else sweeps[|sweeps| - 1].now
  }

  lemma StreakOkSwept(streak: seq<real>, s: State, active: seq<Visit>, k: AccountKey, clock: real, now: real)
    requires StreakOk(streak, s, k, clock) && clock <= now
    ensures StreakOk(if k in KeysOf(Orphans(s, Keys(active))) then [] else streak, Swept(s, active), k, now)
  {
  }

  lemma StreakOkSweep(streak: seq<real>, s: State, input: SweepInput, k: AccountKey, clock: real)
    requires StreakOk(streak, s, k, clock) && clock <= input.now
    ensures StreakOk(StreakSweep(streak, s, input, k), Sweep(s, input).state, k, input.now)
  {
    var active := ActiveVisits(input.visits);
    var s0 := Swept(s, active);
    var streak0 := if k in KeysOf(Orphans(s, Keys(active))) then [] else streak;
    StreakOkSwept(streak, s, active, k, clock, input.now);
    StreakOkVisits(streak0, s0, active, input.now, k);
    SameLedgerSameStreak(StreakSweep(streak, s, input, k), ReconcileAll(s0, active, input.now).state, Sweep(s, input).state, k, input.now);
  }

  lemma ClockedTail(clock: real, sweeps: seq<SweepInput>)
    requires ClockedFrom(clock, sweeps) && sweeps != []
    ensures clock <= sweeps[0].now && ClockedFrom(sweeps[0].now, sweeps[1..])
    ensures EndOf(sweeps[0].now, sweeps[1..]) == EndOf(clock, sweeps)
  {
  }

  lemma {:induction false} StreakOkRun(streak: seq<real>, s: State, sweeps: seq<SweepInput>, k: AccountKey, clock: real)
    requires StreakOk(streak, s, k, clock) && ClockedFrom(clock, sweeps)
    ensures StreakOk(StreakRun(streak, s, sweeps, k), Run(s, sweeps), k, EndOf(clock, sweeps))
    decreases |sweeps|
  {
    if sweeps != [] {
      ClockedTail(clock, sweeps);
      StreakOkSweep(streak, s, sweeps[0], k, clock);
      StreakOkRun(StreakSweep(streak, s, sweeps[0], k), Sweep(s, sweeps[0]).state, sweeps[1..], k, sweeps[0].now);
    }
  }

  /** Least time from the first to the n-th failure of a streak. */
  function MinSpan(n: nat): real
    requires n > 0
  {
    if n <= 6 then 10.0 * (Pow2(n - 1) as real - 1.0) else 310.0 + 300.0 * (n - 6) as real
  }

  lemma {:induction false} DelaySaturates(n: nat)
    requires n >= 6
    ensures Delay(n) == 300.0 && Pow2(n - 1) >= 32
  {
    if n > 6 {
      DelaySaturates(n - 1);
    } else {
      assert Pow2(5) == 2 * Pow2(4) == 4 * Pow2(3) == 8 * Pow2(2) == 16 * Pow2(1) == 32;
    }
  }

  lemma MinSpanStep(n: nat)
    requires n > 0
    ensures MinSpan(n + 1) == MinSpan(n) + Delay(n)
  {
    if n >= 6 {
      DelaySaturates(n);
      assert Pow2(5) == 2 * Pow2(4) == 4 * Pow2(3) == 8 * Pow2(2) == 16 * Pow2(1) == 32;
    } else {
      assert Pow2(n) == 2 * Pow2(n - 1);
      assert Pow2(4) == 2 * Pow2(3) == 4 * Pow2(2) == 8 * Pow2(1) == 16;
      assert Pow2(n - 1) <= 16;
    }
  }

  lemma {:induction false} SpacedSpans(streak: seq<real>, n: nat)
    requires Spaced(streak) && 0 < n <= |streak| && n <= LIMIT + 1
    ensures streak[n - 1] - streak[0] >= MinSpan(n)
  {
    if n > 1 {
      SpacedSpans(streak, n - 1);
      MinSpanStep(n - 1);
      assert streak[n - 2] + Delay(n - 1) <= streak[n - 1];
    }
  }

  /** In every run, the first n failures of an unbroken streak span at least
      10*(2^(n-1)-1) seconds for n <= 6 and 310+300*(n-6) beyond, up to the 1025th. */
  lemma {:induction false} FailureStreaksSpread(sweeps: seq<SweepInput>, k: AccountKey, start: real, n: nat)
    requires ClockedFrom(start, sweeps)
    requires 0 < n <= |StreakRun([], INITIAL, sweeps, k)| && n <= LIMIT + 1
    ensures
      var streak := StreakRun([], INITIAL, sweeps, k);
      streak[n - 1] - streak[0] >= MinSpan(n)
  {
    StreakOkRun([], INITIAL, sweeps, k, start);
    SpacedSpans(StreakRun([], INITIAL, sweeps, k), n);
  }

  // ---------- Overflow of the backoff power ----------

  /** The figures: delays of 10, 20, 40, 80, 160 and then 300 seconds up to the 1024th failure,
      and none that can be computed for the 1025th. */
  lemma {:induction false} DelaysInFigures(n: nat)
    ensures Backoff(1) == Some(10.0) && Backoff(2) == Some(20.0) && Backoff(3) == Some(40.0)
    ensures Backoff(4) == Some(80.0) && Backoff(5) == Some(160.0)
    ensures 6 <= n <= 1024 ==> Backoff(n) == Some(300.0)
    ensures n > 1024 <==> Backoff(n) == None
  {
    assert Pow2(4) == 2 * Pow2(3) == 4 * Pow2(2) == 8 * Pow2(1) == 16;
    if n >= 6 {
      DelaySaturates(n);
    }
  }

  /** The visit would fail with all computable delays used up. */
  predicate Overflows(s: State, v: Visit, now: real) {
    Decide(s, v, now).Failed? && v.account.key in s.failures && s.failures[v.account.key] >= LIMIT
  }

  /** Visit `i` overflows, and every earlier visit of its account keeps the daemon as it is. */
  ghost predicate OverflowsAt(s: State, visits: seq<Visit>, now: real, i: int) {
    && 0 <= i < |visits| && Overflows(s, visits[i], now)
    && forall j :: 0 <= j < i && visits[j].account.key == visits[i].account.key ==> Decide(s, visits[j], now) == Kept
  }

  /** No visit before `i` overflows. */
  ghost predicate Reached(s: State, visits: seq<Visit>, now: real, i: int) {
    forall j :: 0 <= j < i && j < |visits| ==> !Overflows(s, visits[j], now)
  }

  ghost predicate SomeOverflow(s: State, visits: seq<Visit>, now: real) {
    exists i :: OverflowsAt(s, visits, now, i)
  }

  lemma VisitRaises(s: State, v: Visit, now: real)
    ensures Reconcile(s, v, now).raised <==> Overflows(s, v, now)
  {
  }

  lemma SameForSameOverflow(s: State, s': State, v: Visit, now: real)
    requires SameFor(s, s', v.account.key)
    ensures Decide(s', v, now) == Decide(s, v, now)
    ensures Overflows(s', v, now) <==> Overflows(s, v, now)
  {
    SameForSameDecision(s, s', v, now);
    assert Lookup(s.failures, v.account.key) == Lookup(s'.failures, v.account.key);
  }

  lemma {:induction false} Pow2IsPositive(n: nat)
    ensures Pow2(n) >= 1
  {
    if n > 0 {
      Pow2IsPositive(n - 1);
    }
  }

  lemma DelayIsPositive(n: nat)
    requires n > 0
    ensures Delay(n) >= 10.0
  {
    Pow2IsPositive(n - 1);
  }

  /** After a visit that did not leave everything as it was, the same account cannot
      overflow again in the same sweep. */
  lemma SettledCannotOverflow(s: State, v: Visit, w: Visit, now: real)
    requires v.account.key == w.account.key && !Reconcile(s, v, now).raised && Decide(s, v, now) != Kept
    ensures !Overflows(Reconcile(s, v, now).state, w, now)
  {
    LedgerAfter(s, v, now);
    if Decide(s, v, now).Failed? {
      DelayIsPositive((if v.account.key in s.failures then s.failures[v.account.key] else 0) + 1);
    }
  }

  lemma OverflowBehind(s: State, visits: seq<Visit>, now: real, i: int)
    requires 0 < i < |visits| && !Reconcile(s, visits[0], now).raised
    ensures OverflowsAt(s, visits, now, i) <==> OverflowsAt(Reconcile(s, visits[0], now).state, visits[1..], now, i - 1)
  {
    var v, w, rest, s1 := visits[0], visits[i], visits[1..], Reconcile(s, visits[0], now).state;
    assert rest[i - 1] == w;
    if v.account.key != w.account.key {
      VisitIsLocal(s, v, now, w.account.key);
      SameForSameOverflow(s, s1, w, now);
      forall j | 0 < j < i && visits[j].account.key == w.account.key
        ensures Decide(s1, visits[j], now) == Decide(s, visits[j], now) && rest[j - 1] == visits[j]
      {
        SameForSameOverflow(s, s1, visits[j], now);
      }
      assert forall j :: 0 <= j < i - 1 ==> rest[j] == visits[j + 1];
    } else if Decide(s, v, now) == Kept {
      assert s1 == s;
      assert forall j :: 0 < j < i ==> rest[j - 1] == visits[j];
      assert forall j :: 0 <= j < i - 1 ==> rest[j] == visits[j + 1];
    } else {
      SettledCannotOverflow(s, v, w, now);
    }
  }

  /** With distinct keys, what a later visit finds about its own account is what the first
      visit found. */
  lemma ReachedBehind(s: State, visits: seq<Visit>, now: real, i: int)
    requires 0 < i <= |visits| && DistinctKeys(visits) && !Reconcile(s, visits[0], now).raised
    ensures Reached(s, visits, now, i) <==> Reached(Reconcile(s, visits[0], now).state, visits[1..], now, i - 1)
  {
    var s1, rest := Reconcile(s, visits[0], now).state, visits[1..];
    VisitRaises(s, visits[0], now);
    forall j | 0 < j < |visits|
      ensures Overflows(s1, rest[j - 1], now) <==> Overflows(s, visits[j], now)
    {
      VisitIsLocal(s, visits[0], now, visits[j].account.key);
      SameForSameOverflow(s, s1, visits[j], now);
    }
    assert forall j :: 0 <= j < |rest| ==> rest[j] == visits[j + 1];
    if Reached(s, visits, now, i) {
      forall j | 0 <= j < i - 1 && j < |rest|
        ensures !Overflows(s1, rest[j], now)
      {
        assert !Overflows(s, visits[j + 1], now);
      }
    }
    if Reached(s1, rest, now, i - 1) {
      forall j | 0 <= j < i && j < |visits|
        ensures !Overflows(s, visits[j], now)
      {
        if j > 0 {
          assert !Overflows(s1, rest[j - 1], now);
        }
      }
    }
  }

  lemma {:induction false} VisitsRaiseIff(s: State, visits: seq<Visit>, now: real)
    ensures ReconcileAll(s, visits, now).raised <==> SomeOverflow(s, visits, now)
    decreases |visits|
  {
    if visits != [] {
      var step := Reconcile(s, visits[0], now);
      VisitRaises(s, visits[0], now);
      if step.raised {
        assert OverflowsAt(s, visits, now, 0);
      } else {
        VisitsRaiseIff(step.state, visits[1..], now);
        OverflowShifts(s, visits, now);
      }
    }
  }

  lemma OverflowShifts(s: State, visits: seq<Visit>, now: real)
    requires visits != [] && !Reconcile(s, visits[0], now).raised
    ensures SomeOverflow(s, visits, now) <==> SomeOverflow(Reconcile(s, visits[0], now).state, visits[1..], now)
  {
    var s1 := Reconcile(s, visits[0], now).state;
    VisitRaises(s, visits[0], now);
    if SomeOverflow(s, visits, now) {
      var i :| OverflowsAt(s, visits, now, i);
      OverflowBehind(s, visits, now, i);
    }
    if SomeOverflow(s1, visits[1..], now) {
      var i :| OverflowsAt(s1, visits[1..], now, i);
      OverflowBehind(s, visits, now, i + 1);
    }
  }

  /** A sweep raises, and leaves the accounts behind the raising one unvisited, exactly if
      in the state before it some active account would fail for at least the 1025th time
      in a row. */
  lemma {:induction false} SweepRaisesIff(s: State, input: SweepInput)
    ensures Sweep(s, input).raised <==> SomeOverflow(s, ActiveVisits(input.visits), input.now)
  {
    var active, now := ActiveVisits(input.visits), input.now;
    var s0 := Swept(s, active);
    VisitsRaiseIff(s0, active, now);
    forall j | 0 <= j < |active|
      ensures Decide(s0, active[j], now) == Decide(s, active[j], now)
      ensures Overflows(s0, active[j], now) <==> Overflows(s, active[j], now)
    {
      SweptKeepsActive(s, active, active[j].account.key);
      SameForSameOverflow(s, s0, active[j], now);
    }
    assert forall i :: OverflowsAt(s0, active, now, i) <==> OverflowsAt(s, active, now, i);
  }

  /** The account has used up the computable delays, has no daemon, and its last
      computed retry time is over. */
  ghost predicate Poisoned(s: State, k: AccountKey, now: real) {
    && k in s.failures && s.failures[k] >= LIMIT
    && k in s.nextRetry && s.nextRetry[k] <= now
    && !AnyDaemon(s, k)
  }

  ghost predicate FailsAgain(v: Visit) {
    MapProvider(v.account.provider).None? || !v.outcome.createOk || !v.outcome.startOk
  }

  lemma PoisonedVisitRaises(s: State, v: Visit, now: real)
    requires Poisoned(s, v.account.key, now) && FailsAgain(v)
    ensures
      var step := Reconcile(s, v, now);
      step.raised && Poisoned(step.state, v.account.key, now) && Lookup(step.state.nextRetry, v.account.key) == Lookup(s.nextRetry, v.account.key)
  {
    ByIdAfter(s.reg, v);
    assert Decide(s, v, now) == Failed(false);
  }

  /** `k` is visited, fails, and comes before `q`. */
  ghost predicate Blocks(visits: seq<Visit>, k: AccountKey, q: AccountKey) {
    visits != [] &&
    if visits[0].account.key == k then k != q && FailsAgain(visits[0])
    else visits[0].account.key != q && Blocks(visits[1..], k, q)
  }

  lemma SameForTransitive(s: State, t: State, u: State, k: AccountKey)
    requires SameFor(s, t, k) && SameFor(t, u, k)
    ensures SameFor(s, u, k)
  {
  }

  lemma PoisonIsLocal(s: State, s': State, k: AccountKey, now: real)
    requires SameFor(s, s', k) && Poisoned(s, k, now)
    ensures Poisoned(s', k, now)
  {
    assert Lookup(s'.failures, k) == Lookup(s.failures, k);
    assert Lookup(s'.nextRetry, k) == Lookup(s.nextRetry, k);
    forall p
      ensures DaemonId(k, p) !in s'.reg.byId
    {
      assert DaemonId(k, p) !in s.reg.byId;
      assert Lookup(s'.reg.byId, DaemonId(k, p)) == Lookup(s.reg.byId, DaemonId(k, p));
    }
  }

  lemma {:induction false} PoisonedVisitsRaise(s: State, visits: seq<Visit>, now: real, k: AccountKey, q: AccountKey)
    requires Poisoned(s, k, now) && Blocks(visits, k, q)
    ensures
      var step := ReconcileAll(s, visits, now);
      step.raised && Poisoned(step.state, k, now) && SameFor(s, step.state, q)
    decreases |visits|
  {
    var v := visits[0];
    var step := Reconcile(s, v, now);
    VisitIsLocal(s, v, now, q);
    if v.account.key == k {
      PoisonedVisitRaises(s, v, now);
    } else {
      VisitIsLocal(s, v, now, k);
      PoisonIsLocal(s, step.state, k, now);
      if !step.raised {
        PoisonedVisitsRaise(step.state, visits[1..], now, k, q);
        SameForTransitive(s, step.state, ReconcileAll(s, visits, now).state, q);
      }
    }
  }

  lemma {:induction false} BlockedIsVisited(visits: seq<Visit>, k: AccountKey, q: AccountKey)
    requires Blocks(visits, k, q)
    ensures k in Keys(visits)
    decreases |visits|
  {
    if visits[0].account.key != k {
      BlockedIsVisited(visits[1..], k, q);
      assert forall v :: v in visits[1..] ==> v in visits;
    }
  }

  lemma PoisonedSweepRaises(s: State, input: SweepInput, k: AccountKey, q: AccountKey)
    requires Poisoned(s, k, input.now)
    requires Blocks(ActiveVisits(input.visits), k, q) && q in Keys(ActiveVisits(input.visits))
    ensures
      var step := Sweep(s, input);
      step.raised && Poisoned(step.state, k, input.now) && SameFor(s, step.state, q)
  {
    var active := ActiveVisits(input.visits);
    var s0 := Swept(s, active);
    BlockedIsVisited(active, k, q);
    SweptKeepsActive(s, active, k);
    SweptKeepsActive(s, active, q);
    PoisonIsLocal(s, s0, k, input.now);
    PoisonedVisitsRaise(s0, active, input.now, k, q);
    SameForTransitive(s, s0, Sweep(s, input).state, q);
  }

  /** From then on the backoff is gone and isolation is lost: as long as the account keeps
      failing, every sweep raises and no account listed after it is ever looked at again. */
  lemma {:induction false} OverflowStarvesLaterAccounts(s: State, sweeps: seq<SweepInput>, k: AccountKey, q: AccountKey, clock: real)
    requires Poisoned(s, k, clock) && ClockedFrom(clock, sweeps)
    requires forall i :: 0 <= i < |sweeps| ==>
               Blocks(ActiveVisits(sweeps[i].visits), k, q) && q in Keys(ActiveVisits(sweeps[i].visits))
    ensures
      var s' := Run(s, sweeps);
      SameFor(s, s', q) && s'.cycles == s.cycles
    decreases |sweeps|
  {
    if sweeps != [] {
      var s1 := Sweep(s, sweeps[0]).state;
      PoisonedSweepRaises(s, sweeps[0], k, q);
      VisitsKeepCycles(Swept(s, ActiveVisits(sweeps[0].visits)), ActiveVisits(sweeps[0].visits), sweeps[0].now);
      OverflowStarvesLaterAccounts(s1, sweeps[1..], k, q, sweeps[0].now);
      SameForTransitive(s, s1, Run(s, sweeps), q);
    }
  }

  // ---------- The overflow is reachable ----------

  /** `n` sweeps that find one failing account, 300 seconds apart. */
  function FailingSweeps(v: Visit, start: real, n: nat): seq<SweepInput> {
    seq(n, i => SweepInput([v], start + 300.0 * i as real))
  }

  /** No daemon runs, and the account has failed `n` times and is due at `clock`. */
  ghost predicate FailedSoFar(s: State, k: AccountKey, n: nat, clock: real) {
    && s.reg.byId == map[]
    && Lookup(s.failures, k) == (if n == 0 then None else Some(n))
    && (n == 0 <==> k !in s.nextRetry) && (k in s.nextRetry ==> s.nextRetry[k] <= clock)
  }

  lemma FailingVisit(s: State, v: Visit, n: nat, now: real)
    requires FailedSoFar(s, v.account.key, n, now) && n < LIMIT && FailsAgain(v)
    ensures !Reconcile(s, v, now).raised && FailedSoFar(Reconcile(s, v, now).state, v.account.key, n + 1, now + 300.0)
  {
    var k := v.account.key;
    ByIdAfter(s.reg, v);
    assert Decide(s, v, now) == Failed(false);
    assert Lookup(s.failures, k) == if n == 0 then None else Some(n);
    LedgerAfter(s, v, now);
  }

  lemma FailingSweep(s: State, v: Visit, n: nat, now: real)
    requires FailedSoFar(s, v.account.key, n, now) && n < LIMIT && FailsAgain(v) && v.account.active
    ensures FailedSoFar(Sweep(s, SweepInput([v], now)).state, v.account.key, n + 1, now + 300.0)
  {
    FailingVisit(s, v, n, now);
    SweepOfOne(s, v, now);
  }

  lemma FailingSweepsSplit(v: Visit, start: real, n: nat)
    requires n > 0
    ensures
      var sweeps := FailingSweeps(v, start, n);
      sweeps[0] == SweepInput([v], start) && sweeps[1..] == FailingSweeps(v, start + 300.0, n - 1)
  {
  }

  lemma {:induction false} FailuresAddUp(s: State, v: Visit, m: nat, n: nat, now: real)
    requires FailedSoFar(s, v.account.key, m, now) && m + n <= LIMIT && FailsAgain(v) && v.account.active
    ensures FailedSoFar(Run(s, FailingSweeps(v, now, n)), v.account.key, m + n, now + 300.0 * n as real)
    decreases n
  {
    if n > 0 {
      var sweeps := FailingSweeps(v, now, n);
      FailingSweep(s, v, m, now);
      FailingSweepsSplit(v, now, n);
      var s1 := Sweep(s, sweeps[0]).state;
      assert Run(s, sweeps) == Run(s1, sweeps[1..]);
      FailuresAddUp(s1, v, m + 1, n - 1, now + 300.0);
    }
  }

  /** From the start on: 1024 sweeps of a failing account exhaust its delays. */
  lemma {:induction false} OverflowIsReachable(v: Visit, start: real)
    requires FailsAgain(v) && v.account.active
    ensures Poisoned(Run(INITIAL, FailingSweeps(v, start, LIMIT)), v.account.key, start + 300.0 * LIMIT as real)
  {
    var k := v.account.key;
    FailuresAddUp(INITIAL, v, 0, LIMIT, start);
    var s := Run(INITIAL, FailingSweeps(v, start, LIMIT));
    assert Lookup(s.failures, k) == Some(LIMIT);
  }

  lemma {:induction false} RunInTwo(s: State, first: seq<SweepInput>, rest: seq<SweepInput>)
    ensures Run(s, first + rest) == Run(Run(s, first), rest)
    decreases |first|
  {
    if first == [] {
      assert first + rest == rest;
    } else {
      assert (first + rest)[0] == first[0] && (first + rest)[1..] == first[1..] + rest;
      RunInTwo(Sweep(s, first[0]).state, first[1..], rest);
    }
  }

  /** A failing account does harm the others: an account that is added after those sweeps
      and listed behind it never gets a daemon, however healthy it is. */
  lemma {:induction false} HealthyAccountStarves(v: Visit, start: real, later: seq<SweepInput>, q: AccountKey)
    requires FailsAgain(v) && v.account.active && ClockedFrom(start + 300.0 * LIMIT as real, later)
    requires forall i :: 0 <= i < |later| ==>
               Blocks(ActiveVisits(later[i].visits), v.account.key, q) && q in Keys(ActiveVisits(later[i].visits))
    ensures !AnyDaemon(Run(INITIAL, FailingSweeps(v, start, LIMIT) + later), q)
  {
    var k, s := v.account.key, Run(INITIAL, FailingSweeps(v, start, LIMIT));
    OverflowIsReachable(v, start);
    FailuresAddUp(INITIAL, v, 0, LIMIT, start);
    RunInTwo(INITIAL, FailingSweeps(v, start, LIMIT), later);
    OverflowStarvesLaterAccounts(s, later, k, q, start + 300.0 * LIMIT as real);
    var s' := Run(s, later);
    forall p
      ensures DaemonId(q, p) !in s'.reg.byId
    {
      assert Lookup(s'.reg.byId, DaemonId(q, p)) == Lookup(s.reg.byId, DaemonId(q, p)) == None;
    }
  }

  lemma {:induction false} VisitsKeepCycles(s: State, visits: seq<Visit>, now: real)
    ensures ReconcileAll(s, visits, now).state.cycles == s.cycles
    decreases |visits|
  {
    if visits != [] {
      var step := Reconcile(s, visits[0], now);
      if !step.raised {
        VisitsKeepCycles(step.state, visits[1..], now);
      }
    }
  }
}
