/** Sweeps over accounts that keep their provider: agreement between registry, retry
    entries and fingerprints, idempotence and convergence. */
module CoordinatorStable {
  import opened Common
  import opened Registry
  import opened Coordinator
  import opened CoordinatorSafety
  import opened ColonKeys

  /** The provider that an account's text maps to, if any. */
  type Providers = AccountKey -> Option<Provider>

  ghost predicate Stable(visits: seq<Visit>, prov: Providers) {
    forall v :: v in visits ==> MapProvider(v.account.provider) == prov(v.account.key)
  }

  /** The account list names no key twice with different contents. */
  ghost predicate Consistent(visits: seq<Visit>) {
    forall v, w :: v in visits && w in visits && v.account.key == w.account.key ==> v.account == w.account
  }

  /** No account has both a daemon and a retry entry, and every daemon was created from
      the configuration whose fingerprint is stored. */
  ghost predicate StableInv(s: State, prov: Providers) {
    && Inv(s)
    && forall id :: id in s.reg.byId ==>
         && prov(id.key) == Some(id.provider)
         && s.hashes[id.key] == s.reg.byId[id].config
         && id.key !in s.nextRetry
  }

  /** The account is in backoff, or its daemon runs with its current configuration. */
  ghost predicate Settled(s: State, a: Account) {
    || a.key in s.nextRetry
    || (exists p :: MapProvider(a.provider) == Some(p) && Current(s, a, p))
  }

  ghost predicate Current(s: State, a: Account, p: Provider) {
    && DaemonId(a.key, p) in s.reg.byId
    && s.reg.byId[DaemonId(a.key, p)].config == Fingerprint(a)
    && a.key in s.hashes && s.hashes[a.key] == Fingerprint(a)
    && a.key !in s.nextRetry
  }

  lemma FailedVisitKeepsStable(s: State, v: Visit, now: real, prov: Providers)
    requires StableInv(s, prov) && MapProvider(v.account.provider) == prov(v.account.key)
    requires Decide(s, v, now).Failed?
    ensures StableInv(Reconcile(s, v, now).state, prov)
  {
    VisitKeepsInv(s, v, now);
    ByIdAfter(s.reg, v);
    var s' := Reconcile(s, v, now).state;
    forall id | id in s'.reg.byId
      ensures id in s.reg.byId && id.key != v.account.key && s'.reg.byId[id] == s.reg.byId[id]
    {
    }
  }

  lemma LaunchedVisitKeepsStable(s: State, v: Visit, now: real, prov: Providers)
    requires StableInv(s, prov) && MapProvider(v.account.provider) == prov(v.account.key)
    requires Decide(s, v, now).Spawned? || Decide(s, v, now).Restarted?
    ensures StableInv(Reconcile(s, v, now).state, prov)
    ensures Settled(Reconcile(s, v, now).state, v.account)
  {
    VisitKeepsInv(s, v, now);
    ByIdAfter(s.reg, v);
    var s', p := Reconcile(s, v, now).state, MapProvider(v.account.provider).value;
    assert Current(s', v.account, p);
  }

  lemma {:induction false} VisitKeepsStable(s: State, v: Visit, now: real, prov: Providers)
    requires StableInv(s, prov) && MapProvider(v.account.provider) == prov(v.account.key)
    ensures StableInv(Reconcile(s, v, now).state, prov)
    ensures Settled(Reconcile(s, v, now).state, v.account)
  {
    match Decide(s, v, now) {
      case Failed(_) => FailedVisitKeepsStable(s, v, now, prov);
      case Spawned => LaunchedVisitKeepsStable(s, v, now, prov);
      case Restarted => LaunchedVisitKeepsStable(s, v, now, prov);
      case Kept => assert Current(s, v.account, MapProvider(v.account.provider).value);
      case InBackoff =>
    }
  }

  lemma SettledIsLocal(s: State, s': State, a: Account)
    requires SameFor(s, s', a.key) && Settled(s, a)
    ensures Settled(s', a)
  {
    if a.key !in s.nextRetry {
      var p :| MapProvider(a.provider) == Some(p) && Current(s, a, p);
      assert Lookup(s'.reg.byId, DaemonId(a.key, p)) == Lookup(s.reg.byId, DaemonId(a.key, p));
      assert Lookup(s'.hashes, a.key) == Lookup(s.hashes, a.key);
      assert Lookup(s'.nextRetry, a.key) == Lookup(s.nextRetry, a.key);
      assert Current(s', a, p);
    }
  }

  lemma {:induction false} VisitsKeepStable(s: State, visits: seq<Visit>, now: real, prov: Providers)
    requires StableInv(s, prov) && Stable(visits, prov)
    ensures StableInv(ReconcileAll(s, visits, now).state, prov)
    decreases |visits|
  {
    if visits != [] {
      VisitKeepsStable(s, visits[0], now, prov);
      var step := Reconcile(s, visits[0], now);
      if !step.raised {
        VisitsKeepStable(step.state, visits[1..], now, prov);
      }
    }
  }

  lemma {:induction false} VisitsLeaveSettled(s: State, visits: seq<Visit>, now: real, prov: Providers, a: Account)
    requires StableInv(s, prov) && Stable(visits, prov)
    requires forall v :: v in visits && v.account.key == a.key ==> v.account == a
    requires a.key in Keys(visits) || Settled(s, a)
    requires !ReconcileAll(s, visits, now).raised
    ensures Settled(ReconcileAll(s, visits, now).state, a)
    decreases |visits|
  {
    if visits != [] {
      VisitKeepsStable(s, visits[0], now, prov);
      var step := Reconcile(s, visits[0], now);
      if visits[0].account.key != a.key && Settled(s, a) {
        VisitIsLocal(s, visits[0], now, a.key);
        SettledIsLocal(s, step.state, a);
      }
      VisitsLeaveSettled(step.state, visits[1..], now, prov, a);
    }
  }

  lemma SweptKeepsStable(s: State, visits: seq<Visit>, prov: Providers)
    requires StableInv(s, prov)
    ensures StableInv(Swept(s, visits), prov)
  {
    SweptKeepsInv(s, visits);
  }

  lemma SweepKeepsStable(s: State, input: SweepInput, prov: Providers)
    requires StableInv(s, prov) && Stable(input.visits, prov)
    ensures StableInv(Sweep(s, input).state, prov)
    ensures Stable(ActiveVisits(input.visits), prov)
  {
    var active := ActiveVisits(input.visits);
    forall v | v in active
      ensures MapProvider(v.account.provider) == prov(v.account.key)
    {
      ActiveVisitsAre(input.visits, v);
    }
    SweptKeepsStable(s, active, prov);
    VisitsKeepStable(Swept(s, active), active, input.now, prov);
    SweepKeepsInv(s, input);
  }

  /** After a sweep that did not raise, every active account is in backoff or runs with
      its current configuration, never both. */
  lemma {:induction false} SweepSettles(s: State, input: SweepInput, prov: Providers, a: Account)
    requires StableInv(s, prov) && Stable(input.visits, prov)
    requires Consistent(ActiveVisits(input.visits))
    requires exists v :: v in ActiveVisits(input.visits) && v.account == a
    requires !Sweep(s, input).raised
    ensures Settled(Sweep(s, input).state, a)
    ensures StableInv(Sweep(s, input).state, prov)
  {
    SweepKeepsStable(s, input, prov);
    var active := ActiveVisits(input.visits);
    SweptKeepsStable(s, active, prov);
    VisitsLeaveSettled(Swept(s, active), active, input.now, prov, a);
    SettledIsLocal(ReconcileAll(Swept(s, active), active, input.now).state, Sweep(s, input).state, a);
  }

  ghost predicate StableRun(sweeps: seq<SweepInput>, prov: Providers) {
    forall i :: 0 <= i < |sweeps| ==> Stable(sweeps[i].visits, prov)
  }

  lemma {:induction false} RunKeepsStable(s: State, sweeps: seq<SweepInput>, prov: Providers)
    requires StableInv(s, prov) && StableRun(sweeps, prov)
    ensures StableInv(Run(s, sweeps), prov)
    decreases |sweeps|
  {
    if sweeps != [] {
      assert Stable(sweeps[0].visits, prov);
      SweepKeepsStable(s, sweeps[0], prov);
      assert StableRun(sweeps[1..], prov);
      RunKeepsStable(Sweep(s, sweeps[0]).state, sweeps[1..], prov);
    }
  }

  /** The same for the sweep after any run: no daemon of an inactive account, no account
      both registered and waiting, and every active account current or waiting. */
  lemma {:induction false} EveryReachableSweep(sweeps: seq<SweepInput>, input: SweepInput, prov: Providers)
    requires StableRun(sweeps, prov) && Stable(input.visits, prov) && Consistent(ActiveVisits(input.visits))
    ensures
      var active := ActiveVisits(input.visits);
      var step := Sweep(Run(INITIAL, sweeps), input);
      && (forall id :: id in step.state.reg.byId ==> id.key in Keys(active) && id.key !in step.state.nextRetry)
      && (!step.raised ==> forall v :: v in active ==> Settled(step.state, v.account))
  {
    var s := Run(INITIAL, sweeps);
    RunKeepsStable(INITIAL, sweeps, prov);
    SweepKeepsStable(s, input, prov);
    SweepIsSafe(s, input);
    if !Sweep(s, input).raised {
      forall v | v in ActiveVisits(input.visits)
        ensures Settled(Sweep(s, input).state, v.account)
      {
        SweepSettles(s, input, prov, v.account);
      }
    }
  }

  // ---------- Idempotence ----------

  ghost predicate SameAccounts(visits: seq<Visit>, again: seq<Visit>) {
    |visits| == |again| && forall i :: 0 <= i < |visits| ==> visits[i].account == again[i].account
  }

  lemma {:induction false} ActiveSameAccounts(visits: seq<Visit>, again: seq<Visit>)
    requires SameAccounts(visits, again)
    ensures SameAccounts(ActiveVisits(visits), ActiveVisits(again))
    decreases |visits|
  {
    if visits != [] {
      ActiveSameAccounts(visits[1..], again[1..]);
    }
  }

  ghost predicate AllDone(s: State, visits: seq<Visit>) {
    forall v :: v in visits ==> v.account.key !in s.nextRetry && Settled(s, v.account)
  }

  lemma {:induction false} NothingToDo(s: State, visits: seq<Visit>, now: real)
    requires AllDone(s, visits)
    ensures ReconcileAll(s, visits, now) == Step(s, false)
    decreases |visits|
  {
    if visits != [] {
      var a := visits[0].account;
      assert visits[0] in visits;
      var p :| MapProvider(a.provider) == Some(p) && Current(s, a, p);
      NothingToDo(s, visits[1..], now);
    }
  }

  lemma SameAccountsSameKeys(visits: seq<Visit>, again: seq<Visit>)
    requires SameAccounts(visits, again)
    ensures Keys(visits) == Keys(again)
  {
    forall k | k in Keys(visits)
      ensures k in Keys(again)
    {
      var i :| 0 <= i < |visits| && visits[i].account.key == k;
      assert again[i] in again;
    }
    forall k | k in Keys(again)
      ensures k in Keys(visits)
    {
      var i :| 0 <= i < |again| && again[i].account.key == k;
      assert visits[i] in visits;
    }
  }

  lemma SameAccountsDone(s: State, visits: seq<Visit>, again: seq<Visit>)
    requires SameAccounts(visits, again) && AllDone(s, visits)
    ensures AllDone(s, again)
  {
    forall v | v in again
      ensures v.account.key !in s.nextRetry && Settled(s, v.account)
    {
      var i :| 0 <= i < |again| && again[i] == v;
      assert visits[i] in visits;
    }
  }

  lemma SweepWithNothingToDo(s: State, input: SweepInput)
    requires AllDone(s, ActiveVisits(input.visits))
    requires forall id :: id in s.reg.byId ==> id.key in Keys(ActiveVisits(input.visits))
    ensures Sweep(s, input) == Step(s.(cycles := s.cycles + 1), false)
  {
    assert Orphans(s, Keys(ActiveVisits(input.visits))) == {};
    TerminateNone(s);
    NothingToDo(s, ActiveVisits(input.visits), input.now);
  }

  /** Repeating a sweep over the same accounts when none is in backoff changes nothing but
      the cycle counter, at any later time and whatever the daemon calls would have done. */
  lemma {:induction false} SecondSweepIsIdle(s: State, input: SweepInput, again: SweepInput, prov: Providers)
    requires StableInv(s, prov) && Stable(input.visits, prov)
    requires Consistent(ActiveVisits(input.visits))
    requires SameAccounts(input.visits, again.visits)
    requires !Sweep(s, input).raised
    requires forall k :: k in Keys(ActiveVisits(input.visits)) ==> k !in Sweep(s, input).state.nextRetry
    ensures
      var s' := Sweep(s, input).state;
      Sweep(s', again) == Step(s'.(cycles := s'.cycles + 1), false)
  {
    var s' := Sweep(s, input).state;
    var active, active' := ActiveVisits(input.visits), ActiveVisits(again.visits);
    ActiveSameAccounts(input.visits, again.visits);
    SameAccountsSameKeys(active, active');
    forall v | v in active
      ensures v.account.key !in s'.nextRetry && Settled(s', v.account)
    {
      SweepSettles(s, input, prov, v.account);
    }
    SameAccountsDone(s', active, active');
    SweepIsSafe(s, input);
    SweepWithNothingToDo(s', again);
  }

  // ---------- Convergence ----------

  ghost predicate Healthy(s: State, visits: seq<Visit>, now: real) {
    forall v :: v in visits ==>
      && v.outcome == Outcome(true, true, true)
      && MapProvider(v.account.provider).Some?
      && (v.account.key in s.nextRetry ==> s.nextRetry[v.account.key] <= now)
  }

  lemma HealthyVisit(s: State, v: Visit, now: real, prov: Providers)
    requires StableInv(s, prov) && Stable([v], prov) && Healthy(s, [v], now)
    ensures
      var step := Reconcile(s, v, now);
      !step.raised && step.state.nextRetry == s.nextRetry - {v.account.key}
  {
    assert v in [v];
  }

  lemma {:induction false} HealthyVisits(s: State, visits: seq<Visit>, now: real, prov: Providers)
    requires StableInv(s, prov) && Stable(visits, prov) && Healthy(s, visits, now)
    ensures
      var step := ReconcileAll(s, visits, now);
      !step.raised && step.state.nextRetry == s.nextRetry - Keys(visits)
    decreases |visits|
  {
    if visits != [] {
      assert visits[0] in visits;
      HealthyVisit(s, visits[0], now, prov);
      VisitKeepsStable(s, visits[0], now, prov);
      HealthyVisits(Reconcile(s, visits[0], now).state, visits[1..], now, prov);
      assert Keys(visits) == {visits[0].account.key} + Keys(visits[1..]);
    }
  }

  /** One undisturbed sweep in which no account is waiting any more leaves exactly the
      active accounts running, each with its current configuration. */
  lemma {:induction false} HealthySweepConverges(s: State, input: SweepInput, prov: Providers)
    requires StableInv(s, prov) && Stable(input.visits, prov)
    requires Consistent(ActiveVisits(input.visits)) && Healthy(s, ActiveVisits(input.visits), input.now)
    ensures
      var active := ActiveVisits(input.visits);
      var step := Sweep(s, input);
      && !step.raised
      && (forall v :: v in active ==> v.account.key !in step.state.nextRetry && Settled(step.state, v.account))
      && (forall id :: id in step.state.reg.byId <==> id.key in Keys(active) && prov(id.key) == Some(id.provider))
  {
    var active := ActiveVisits(input.visits);
    var s0, s' := Swept(s, active), Sweep(s, input).state;
    SweepKeepsStable(s, input, prov);
    SweptKeepsStable(s, active, prov);
    assert Healthy(s0, active, input.now);
    HealthyVisits(s0, active, input.now, prov);
    forall v | v in active
      ensures v.account.key !in s'.nextRetry && Settled(s', v.account)
      ensures forall p :: MapProvider(v.account.provider) == Some(p) ==> DaemonId(v.account.key, p) in s'.reg.byId
    {
      SweepSettles(s, input, prov, v.account);
    }
    SweepIsSafe(s, input);
  }

  ghost predicate RetryWithin(s: State, clock: real) {
    forall k :: k in s.nextRetry ==> s.nextRetry[k] <= clock + 300.0
  }

  lemma {:induction false} VisitsBoundRetries(s: State, visits: seq<Visit>, now: real)
    requires RetryWithin(s, now)
    ensures RetryWithin(ReconcileAll(s, visits, now).state, now)
    decreases |visits|
  {
    if visits != [] {
      var step := Reconcile(s, visits[0], now);
      assert RetryWithin(step.state, now);
      if !step.raised {
        VisitsBoundRetries(step.state, visits[1..], now);
      }
    }
  }

  lemma {:induction false} RunBoundsRetries(s: State, sweeps: seq<SweepInput>, start: real, end: real)
    requires RetryWithin(s, start) && ClockedFrom(start, sweeps) && start <= end
    requires forall i :: 0 <= i < |sweeps| ==> sweeps[i].now <= end
    ensures RetryWithin(Run(s, sweeps), end)
    decreases |sweeps|
  {
    if sweeps != [] {
      var active := ActiveVisits(sweeps[0].visits);
      VisitsBoundRetries(Swept(s, active), active, sweeps[0].now);
      RunBoundsRetries(Sweep(s, sweeps[0]).state, sweeps[1..], sweeps[0].now, end);
    }
  }

  /** Whatever failed before, the first undisturbed sweep at least 300 seconds after the
      last one brings every active account up. */
  lemma {:induction false} RecoversWithin300Seconds(sweeps: seq<SweepInput>, input: SweepInput, start: real, end: real, prov: Providers)
    requires ClockedFrom(start, sweeps) && start <= end && StableRun(sweeps, prov) && Stable(input.visits, prov)
    requires forall i :: 0 <= i < |sweeps| ==> sweeps[i].now <= end
    requires end + 300.0 <= input.now && Consistent(ActiveVisits(input.visits))
    requires forall v :: v in ActiveVisits(input.visits) ==>
               v.outcome == Outcome(true, true, true) && MapProvider(v.account.provider).Some?
    ensures
      var active := ActiveVisits(input.visits);
      var step := Sweep(Run(INITIAL, sweeps), input);
      && !step.raised
      && (forall v :: v in active ==> v.account.key !in step.state.nextRetry && Settled(step.state, v.account))
      && (forall id :: id in step.state.reg.byId <==> id.key in Keys(active) && prov(id.key) == Some(id.provider))
  {
    RunKeepsStable(INITIAL, sweeps, prov);
    RunBoundsRetries(INITIAL, sweeps, start, end);
    HealthySweepConverges(Run(INITIAL, sweeps), input, prov);
  }

  // ---------- Fingerprints ----------

  /** The part of an account record whose change must restart its daemon. */
  function Parts(a: Account): seq<string> {
    [a.provider, a.email, a.accessToken, a.refreshToken]
  }

  /** A configuration shares its fingerprint with no other one exactly if none of its parts
      holds a ':'. */
  lemma {:induction false} FingerprintSeparatesIff(a: Account)
    ensures (forall b :: Fingerprint(b) == Fingerprint(a) ==> Parts(b) == Parts(a)) <==>
            ':' !in a.provider && ':' !in a.email && ':' !in a.accessToken && ':' !in a.refreshToken
  {
    var ps := Parts(a);
    OnlySplitIff(ps);
    assert ps[0] == a.provider && ps[1] == a.email && ps[2] == a.accessToken && ps[3] == a.refreshToken;
    if OnlySplit(ps) {
      forall b | Fingerprint(b) == Fingerprint(a)
        ensures Parts(b) == ps
      {
        FingerprintIsJoin(a);
        FingerprintIsJoin(b);
      }
    } else {
      var b := OtherAccount(a);
    }
  }

  lemma FingerprintIsJoin(a: Account)
    ensures Fingerprint(a) == Join(Parts(a))
  {
    JoinFour(a.provider, a.email, a.accessToken, a.refreshToken);
  }

  lemma OtherAccount(a: Account) returns (b: Account)
    requires !OnlySplit(Parts(a))
    ensures Fingerprint(b) == Fingerprint(a) && Parts(b) != Parts(a)
  {
    var qs: seq<string> :| |qs| == 4 && Join(qs) == Join(Parts(a)) && qs != Parts(a);
    b := a.(provider := qs[0], email := qs[1], accessToken := qs[2], refreshToken := qs[3]);
    assert Parts(b) == qs;
    FingerprintIsJoin(a);
    FingerprintIsJoin(b);
  }

  /** Equal fingerprints mean equal configuration when only the refresh token may hold ':'. */
  lemma {:induction false} FingerprintSeparates(a: Account, b: Account)
    requires ':' !in a.provider + a.email + a.accessToken && ':' !in b.provider + b.email + b.accessToken
    ensures Fingerprint(a) == Fingerprint(b) <==>
            a.provider == b.provider && a.email == b.email && a.accessToken == b.accessToken && a.refreshToken == b.refreshToken
  {
    ColonSplits(a.provider, a.email + ":" + (a.accessToken + ":" + a.refreshToken),
                b.provider, b.email + ":" + (b.accessToken + ":" + b.refreshToken));
    ColonSplits(a.email, a.accessToken + ":" + a.refreshToken, b.email, b.accessToken + ":" + b.refreshToken);
    ColonSplits(a.accessToken, a.refreshToken, b.accessToken, b.refreshToken);
  }

  /** Otherwise moving a ':' between the tokens goes unnoticed. */
  lemma {:induction false} FingerprintCollision(a: Account, x: string, y: string, z: string)
    ensures Fingerprint(a.(accessToken := x + ":" + y, refreshToken := z)) ==
            Fingerprint(a.(accessToken := x, refreshToken := y + ":" + z))
  {
    assert (x + ":" + y) + ":" + z == x + ":" + (y + ":" + z);
  }
}
