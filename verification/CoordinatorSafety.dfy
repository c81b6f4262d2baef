/** What every sweep of the coordinator keeps and establishes, whatever fails. */
module CoordinatorSafety {
  import opened Common
  import opened Registry
  import opened Coordinator

  ghost predicate Inv(s: State) {
    && IdsMatch(s.reg)
    && s.failures.Keys == s.nextRetry.Keys
    && (forall id :: id in s.reg.byId ==> id.key in s.hashes)
  }

  ghost predicate SameDaemons(r: Index, r': Index, k: AccountKey) {
    forall p :: Lookup(r.byId, DaemonId(k, p)) == Lookup(r'.byId, DaemonId(k, p))
  }

  /** Everything the coordinator knows about account `k`. */
  ghost predicate SameFor(s: State, s': State, k: AccountKey) {
    && SameDaemons(s.reg, s'.reg, k)
    && Lookup(s.failures, k) == Lookup(s'.failures, k)
    && Lookup(s.nextRetry, k) == Lookup(s'.nextRetry, k)
    && Lookup(s.hashes, k) == Lookup(s'.hashes, k)
  }

  ghost predicate AnyDaemon(s: State, k: AccountKey) {
    exists p :: DaemonId(k, p) in s.reg.byId
  }

  lemma {:induction false} ActiveVisitsAre(visits: seq<Visit>, v: Visit)
    ensures v in ActiveVisits(visits) <==> v in visits && v.account.active
    decreases |visits|
  {
    if visits != [] {
      ActiveVisitsAre(visits[1..], v);
      assert visits == [visits[0]] + visits[1..];
    }
  }

  /** Of the id index, a visit changes at most the entry of its own account and provider. */
  lemma ByIdAfter(r: Index, v: Visit)
    ensures RegistryAfter(r, v).byId ==
            match MapProvider(v.account.provider)
            case None => r.byId
            case Some(p) =>
              var d := DaemonFor(v.account, p);
              if LaunchOk(d.Id() in r.byId, v.outcome) then r.byId[d.Id() := d] else r.byId - {d.Id()}
  {
  }

  lemma RegistryIsLocal(r: Index, v: Visit, k: AccountKey)
    requires v.account.key != k
    ensures SameDaemons(r, RegistryAfter(r, v), k)
  {
    ByIdAfter(r, v);
  }

  lemma RegistryByVerdict(s: State, v: Visit, now: real)
    ensures
      var s', verdict := Reconcile(s, v, now).state, Decide(s, v, now);
      && s'.terminated == s.terminated
      && s'.spawned == s.spawned + (if verdict == Spawned then 1 else 0)
      && s'.reg == if verdict.InBackoff? || verdict.Kept? then s.reg else RegistryAfter(s.reg, v)
  {
  }

  lemma LedgerIsLocal(s: State, v: Visit, now: real, k: AccountKey)
    requires v.account.key != k
    ensures
      var s' := Reconcile(s, v, now).state;
      && Lookup(s'.failures, k) == Lookup(s.failures, k)
      && Lookup(s'.nextRetry, k) == Lookup(s.nextRetry, k)
      && Lookup(s'.hashes, k) == Lookup(s.hashes, k)
  {
  }

  lemma VisitIsLocal(s: State, v: Visit, now: real, k: AccountKey)
    requires v.account.key != k
    ensures SameFor(s, Reconcile(s, v, now).state, k)
  {
    LedgerIsLocal(s, v, now, k);
    RegistryByVerdict(s, v, now);
    RegistryIsLocal(s.reg, v, k);
  }

  lemma RegistryKeepsIds(r: Index, v: Visit)
    requires IdsMatch(r)
    ensures IdsMatch(RegistryAfter(r, v))
    ensures forall id :: id in RegistryAfter(r, v).byId ==> id in r.byId || id.key == v.account.key
  {
    ByIdAfter(r, v);
  }

  lemma VisitKeepsInv(s: State, v: Visit, now: real)
    requires Inv(s)
    ensures Inv(Reconcile(s, v, now).state)
  {
    RegistryKeepsIds(s.reg, v);
    if Decide(s, v, now).Failed? {
      ByIdAfter(s.reg, v);
    }
  }

  /** A visit ends with a daemon for the account or with a retry entry. */
  lemma VisitSettles(s: State, v: Visit, now: real)
    requires Inv(s)
    ensures
      var s' := Reconcile(s, v, now).state;
      AnyDaemon(s', v.account.key) || v.account.key in s'.nextRetry
  {
    ByIdAfter(s.reg, v);
    var s' := Reconcile(s, v, now).state;
    match MapProvider(v.account.provider) {
      case None =>
      case Some(p) => assert DaemonId(v.account.key, p) in s'.reg.byId || v.account.key in s'.nextRetry;
    }
  }

  lemma {:induction false} VisitsKeepInv(s: State, visits: seq<Visit>, now: real)
    requires Inv(s)
    ensures Inv(ReconcileAll(s, visits, now).state)
    decreases |visits|
  {
    if visits != [] {
      VisitKeepsInv(s, visits[0], now);
      var step := Reconcile(s, visits[0], now);
      if !step.raised {
        VisitsKeepInv(step.state, visits[1..], now);
      }
    }
  }

  lemma {:induction false} VisitsAreLocal(s: State, visits: seq<Visit>, now: real, k: AccountKey)
    requires forall v :: v in visits ==> v.account.key != k
    ensures SameFor(s, ReconcileAll(s, visits, now).state, k)
    decreases |visits|
  {
    if visits != [] {
      VisitIsLocal(s, visits[0], now, k);
      var step := Reconcile(s, visits[0], now);
      if !step.raised {
        VisitsAreLocal(step.state, visits[1..], now, k);
      }
    }
  }

  lemma {:induction false} VisitsSettle(s: State, visits: seq<Visit>, now: real, k: AccountKey)
    requires Inv(s)
    requires k in Keys(visits) || AnyDaemon(s, k) || k in s.nextRetry
    ensures
      var step := ReconcileAll(s, visits, now);
      step.raised || AnyDaemon(step.state, k) || k in step.state.nextRetry
    decreases |visits|
  {
    if visits != [] {
      var step := Reconcile(s, visits[0], now);
      VisitKeepsInv(s, visits[0], now);
      if visits[0].account.key == k {
        VisitSettles(s, visits[0], now);
      } else {
        VisitIsLocal(s, visits[0], now, k);
      }
      if !step.raised {
        VisitsSettle(step.state, visits[1..], now, k);
      }
    }
  }

  /** Visits never register a daemon for an account that is not visited. */
  lemma {:induction false} VisitsRegisterOnlyVisited(s: State, visits: seq<Visit>, now: real, id: DaemonId)
    requires id in ReconcileAll(s, visits, now).state.reg.byId
    ensures id in s.reg.byId || id.key in Keys(visits)
    decreases |visits|
  {
    if id.key !in Keys(visits) {
      VisitsAreLocal(s, visits, now, id.key);
    }
  }

  lemma SweptKeepsInv(s: State, visits: seq<Visit>)
    requires Inv(s)
    ensures Inv(Swept(s, visits))
  {
  }

  lemma SweepKeepsInv(s: State, input: SweepInput)
    requires Inv(s)
    ensures Inv(Sweep(s, input).state)
  {
    var active := ActiveVisits(input.visits);
    SweptKeepsInv(s, active);
    VisitsKeepInv(Swept(s, active), active, input.now);
  }

  /** After any sweep no daemon is registered for an inactive or removed account; after
      one that did not raise, every active account has a daemon or a retry entry. */
  lemma {:induction false} SweepIsSafe(s: State, input: SweepInput)
    requires Inv(s)
    ensures
      var active := Keys(ActiveVisits(input.visits));
      var step := Sweep(s, input);
      && Inv(step.state)
      && (forall id :: id in step.state.reg.byId ==> id.key in active)
      && (!step.raised ==> forall k :: k in active ==> AnyDaemon(step.state, k) || k in step.state.nextRetry)
  {
    SweepKeepsInv(s, input);
    var active := ActiveVisits(input.visits);
    var s0 := Swept(s, active);
    SweptKeepsInv(s, active);
    var step := ReconcileAll(s0, active, input.now);
    forall id | id in step.state.reg.byId
      ensures id.key in Keys(active)
    {
      VisitsRegisterOnlyVisited(s0, active, input.now, id);
    }
    if !step.raised {
      forall k | k in Keys(active)
        ensures AnyDaemon(Sweep(s, input).state, k) || k in step.state.nextRetry
      {
        VisitsSettle(s0, active, input.now, k);
        if AnyDaemon(step.state, k) {
          var p :| DaemonId(k, p) in step.state.reg.byId;
          assert DaemonId(k, p) in Sweep(s, input).state.reg.byId;
        }
      }
    }
  }

  /** Every reachable state, from the empty registry on. */
  lemma {:induction false} RunKeepsInv(s: State, sweeps: seq<SweepInput>)
    requires Inv(s)
    ensures Inv(Run(s, sweeps))
    decreases |sweeps|
  {
    if sweeps != [] {
      SweepKeepsInv(s, sweeps[0]);
      RunKeepsInv(Sweep(s, sweeps[0]).state, sweeps[1..]);
    }
  }

  /** Accounts that lose their daemon to a sweep leave no failure count, retry time or
      fingerprint behind, and each lost daemon is counted. */
  lemma {:induction false} SweepForgetsTerminated(s: State, input: SweepInput, id: DaemonId)
    requires Inv(s) && id in s.reg.byId && id.key !in Keys(ActiveVisits(input.visits))
    ensures
      var s' := Sweep(s, input).state;
      && !AnyDaemon(s', id.key)
      && id.key !in s'.failures && id.key !in s'.nextRetry && id.key !in s'.hashes
      && s'.terminated == s.terminated + |Orphans(s, Keys(ActiveVisits(input.visits)))|
  {
    var active := ActiveVisits(input.visits);
    var s0 := Swept(s, active);
    assert id in Orphans(s, Keys(active)) && id.key in KeysOf(Orphans(s, Keys(active)));
    VisitsAreLocal(s0, active, input.now, id.key);
    VisitsBalance(s0, active, input.now);
    SweepIsSafe(s, input);
    var step := ReconcileAll(s0, active, input.now);
    assert Lookup(step.state.failures, id.key) == Lookup(s0.failures, id.key) == None;
    assert Lookup(step.state.nextRetry, id.key) == Lookup(s0.nextRetry, id.key) == None;
    assert Lookup(step.state.hashes, id.key) == Lookup(s0.hashes, id.key) == None;
  }

  // ---------- Retry entries of removed accounts ----------

  /** A sweep clears the retry entry of an account that is no longer active exactly if a
      daemon of it is registered; otherwise failure count and retry time stay as they are. */
  lemma {:induction false} SweepKeepsRetryEntryIff(s: State, input: SweepInput, k: AccountKey)
    requires k !in Keys(ActiveVisits(input.visits))
    ensures
      var s' := Sweep(s, input).state;
      && (k in s'.nextRetry <==> k in s.nextRetry && !AnyDaemon(s, k))
      && (!AnyDaemon(s, k) ==> Lookup(s'.nextRetry, k) == Lookup(s.nextRetry, k) && Lookup(s'.failures, k) == Lookup(s.failures, k))
      && !AnyDaemon(s', k)
  {
    var active := ActiveVisits(input.visits);
    var s0, s' := Swept(s, active), Sweep(s, input).state;
    VisitsAreLocal(s0, active, input.now, k);
    assert Lookup(s'.nextRetry, k) == Lookup(s0.nextRetry, k) && Lookup(s'.failures, k) == Lookup(s0.failures, k);
    assert AnyDaemon(s, k) <==> k in KeysOf(Orphans(s, Keys(active)));
    forall p
      ensures DaemonId(k, p) !in s'.reg.byId
    {
      assert DaemonId(k, p) !in s0.reg.byId;
      assert Lookup(s'.reg.byId, DaemonId(k, p)) == Lookup(s0.reg.byId, DaemonId(k, p));
    }
  }

  /** An account that leaves the list while it has a retry entry and no daemon keeps that
      entry through any number of sweeps; one with a daemon loses it in the first. */
  lemma {:induction false} RetryEntryOutlivesAccount(s: State, sweeps: seq<SweepInput>, k: AccountKey)
    requires forall i :: 0 <= i < |sweeps| ==> k !in Keys(ActiveVisits(sweeps[i].visits))
    ensures
      var s' := Run(s, sweeps);
      && (k in s'.nextRetry <==> k in s.nextRetry && (sweeps == [] || !AnyDaemon(s, k)))
      && (!AnyDaemon(s, k) ==> Lookup(s'.nextRetry, k) == Lookup(s.nextRetry, k) && Lookup(s'.failures, k) == Lookup(s.failures, k))
    decreases |sweeps|
  {
    if sweeps != [] {
      SweepKeepsRetryEntryIff(s, sweeps[0], k);
      RetryEntryOutlivesAccount(Sweep(s, sweeps[0]).state, sweeps[1..], k);
    }
  }

  /** The enumeration's own names are recognised as themselves. */
  lemma {:induction false} ProviderNamesMapToThemselves()
    ensures MapProvider("MS_GRAPH") == Some(MsGraph)
    ensures MapProvider("GMAIL") == Some(Gmail)
    ensures MapProvider("IMAP") == Some(Imap)
  {
    assert Upper("MS_GRAPH") == "MS_GRAPH" && OccursAt("MS_GRAPH", "GRAPH", 3);
    assert Upper("GMAIL") == "GMAIL" && OccursAt("GMAIL", "GMAIL", 0) && !OccursAt("GMAIL", "GRAPH", 0);
    assert Upper("IMAP") == "IMAP" && OccursAt("IMAP", "IMAP", 0);
  }

  /** Which provider a text names, whatever its case: the first of the three that has one of
      its names in it. */
  lemma {:induction false} ProviderByName(text: string)
    ensures
      var u := Upper(text);
      var graph := Contains(u, "GRAPH") || Contains(u, "MICROSOFT") || Contains(u, "OFFICE");
      var gmail := Contains(u, "GMAIL") || Contains(u, "GOOGLE");
      && (MapProvider(text) == Some(MsGraph) <==> graph)
      && (MapProvider(text) == Some(Gmail) <==> gmail && !graph)
      && (MapProvider(text) == Some(Imap) <==> Contains(u, "IMAP") && !gmail && !graph)
  {
  }

  // ---------- Daemons without a fingerprint ----------

  /** A daemon found without a stored fingerprint, or with the current one, is kept as it is;
      with another one it is restarted, if the daemon calls succeed. */
  lemma {:induction false} FoundDaemonIsKeptIff(s: State, v: Visit, now: real, p: Provider)
    requires MapProvider(v.account.provider) == Some(p) && DaemonId(v.account.key, p) in s.reg.byId
    requires v.account.key in s.nextRetry ==> s.nextRetry[v.account.key] <= now
    ensures
      var k, s' := v.account.key, Reconcile(s, v, now).state;
      && (k !in s.hashes ==> s' == s && !Reconcile(s, v, now).raised)
      && (k in s.hashes && s.hashes[k] == Fingerprint(v.account) ==> s' == s && !Reconcile(s, v, now).raised)
      && (k in s.hashes && s.hashes[k] != Fingerprint(v.account) && v.outcome == Outcome(true, true, true) ==>
            Lookup(s'.reg.byId, DaemonId(k, p)) == Some(DaemonFor(v.account, p)) && Lookup(s'.hashes, k) == Some(Fingerprint(v.account)))
  {
    RegistryByVerdict(s, v, now);
    ByIdAfter(s.reg, v);
  }

  // ---------- Daemons kept under a former provider ----------

  /** A daemon of an active account whose id no visit of the sweep maps to is neither
      stopped nor replaced: it is there after the sweep exactly if it was there before. */
  lemma {:induction false} StaleProviderDaemonStays(s: State, input: SweepInput, id: DaemonId)
    requires id.key in Keys(ActiveVisits(input.visits))
    requires forall v :: v in ActiveVisits(input.visits) && v.account.key == id.key ==>
               MapProvider(v.account.provider) != Some(id.provider)
    ensures Lookup(Sweep(s, input).state.reg.byId, id) == Lookup(s.reg.byId, id)
  {
    var active := ActiveVisits(input.visits);
    VisitsKeepOtherIds(Swept(s, active), active, input.now, id);
  }

  lemma VisitKeepsOtherId(s: State, v: Visit, now: real, id: DaemonId)
    requires v.account.key == id.key ==> MapProvider(v.account.provider) != Some(id.provider)
    ensures Lookup(Reconcile(s, v, now).state.reg.byId, id) == Lookup(s.reg.byId, id)
  {
    RegistryByVerdict(s, v, now);
    ByIdAfter(s.reg, v);
  }

  lemma {:induction false} VisitsKeepOtherIds(s: State, visits: seq<Visit>, now: real, id: DaemonId)
    requires forall v :: v in visits && v.account.key == id.key ==> MapProvider(v.account.provider) != Some(id.provider)
    ensures Lookup(ReconcileAll(s, visits, now).state.reg.byId, id) == Lookup(s.reg.byId, id)
    decreases |visits|
  {
    if visits != [] {
      VisitKeepsOtherId(s, visits[0], now, id);
      var step := Reconcile(s, visits[0], now);
      if !step.raised {
        VisitsKeepOtherIds(step.state, visits[1..], now, id);
      }
    }
  }

  lemma SameForSameDecision(s: State, s': State, v: Visit, now: real)
    requires SameFor(s, s', v.account.key)
    ensures Decide(s', v, now) == Decide(s, v, now)
  {
    var k := v.account.key;
    assert Lookup(s.nextRetry, k) == Lookup(s'.nextRetry, k);
    assert Lookup(s.hashes, k) == Lookup(s'.hashes, k);
    match MapProvider(v.account.provider) {
      case None =>
      case Some(p) => assert Lookup(s.reg.byId, DaemonId(k, p)) == Lookup(s'.reg.byId, DaemonId(k, p));
    }
  }

  ghost predicate DistinctKeys(visits: seq<Visit>) {
    forall i, j :: 0 <= i < j < |visits| ==> visits[i].account.key != visits[j].account.key
  }

  lemma SweptKeepsActive(s: State, visits: seq<Visit>, k: AccountKey)
    requires k in Keys(visits)
    ensures SameFor(s, Swept(s, visits), k)
  {
  }

  lemma SweepOfOne(s: State, v: Visit, now: real)
    requires v.account.active && forall id :: id in s.reg.byId ==> id.key == v.account.key
    ensures
      var step := Reconcile(s, v, now);
      Sweep(s, SweepInput([v], now)) == if step.raised then step else Step(step.state.(cycles := step.state.cycles + 1), false)
  {
    assert [v][1..] == [] && ActiveVisits([v]) == [v];
    assert v in [v] && Orphans(s, Keys([v])) == {};
    TerminateNone(s);
    var step := Reconcile(s, v, now);
    assert ReconcileAll(step.state, [], now) == Step(step.state, false);
  }

  // ---------- Conservation of daemons ----------

  /** Restarts that failed after the old daemon was taken away. */
  function LostDaemons(s: State, visits: seq<Visit>, now: real): nat
    decreases |visits|
  {
    if visits == [] then 0
    else
      var step := Reconcile(s, visits[0], now);
      Lost(s, visits[0], now) +
      if step.raised then 0 else LostDaemons(step.state, visits[1..], now)
  }

  function LostInRun(s: State, sweeps: seq<SweepInput>): nat
    decreases |sweeps|
  {
    if sweeps == [] then 0
    else
      var active := ActiveVisits(sweeps[0].visits);
      LostDaemons(Swept(s, active), active, sweeps[0].now) + LostInRun(Sweep(s, sweeps[0]).state, sweeps[1..])
  }

  function CountAfter(r: Index, v: Visit): int {
    match MapProvider(v.account.provider)
    case None => |r.byId|
    case Some(p) =>
      var had := DaemonId(v.account.key, p) in r.byId;
      |r.byId| - (if had then 1 else 0) + if LaunchOk(had, v.outcome) then 1 else 0
  }

  lemma CountEntries<K, V>(m: map<K, V>, k: K, v: V)
    ensures |m[k := v]| == |m| + if k in m then 0 else 1
    ensures |m - {k}| == |m| - if k in m then 1 else 0
  {
    assert m[k := v].Keys == m.Keys + {k};
    assert (m - {k}).Keys == m.Keys - {k};
  }

  lemma RegistryBalance(r: Index, v: Visit)
    ensures |RegistryAfter(r, v).byId| == CountAfter(r, v)
  {
    ByIdAfter(r, v);
    match MapProvider(v.account.provider) {
      case None =>
      case Some(p) =>
        CountEntries(r.byId, DaemonId(v.account.key, p), DaemonFor(v.account, p));
    }
  }

  lemma CountByVerdict(s: State, v: Visit, now: real)
    ensures
      match Decide(s, v, now)
      case InBackoff => true
      case Kept => true
      case Failed(lost) => CountAfter(s.reg, v) == |s.reg.byId| - if lost then 1 else 0
      case Spawned => CountAfter(s.reg, v) == |s.reg.byId| + 1
      case Restarted => CountAfter(s.reg, v) == |s.reg.byId|
  {
  }

  function Lost(s: State, v: Visit, now: real): nat {
    if Decide(s, v, now) == Failed(true) then 1 else 0
  }

  lemma VisitBalance(s: State, v: Visit, now: real)
    ensures
      var s' := Reconcile(s, v, now).state;
      |s'.reg.byId| == |s.reg.byId| + s'.spawned - s.spawned - Lost(s, v, now) && s'.terminated == s.terminated
  {
    RegistryBalance(s.reg, v);
    CountByVerdict(s, v, now);
    RegistryByVerdict(s, v, now);
  }

  lemma {:induction false} VisitsBalance(s: State, visits: seq<Visit>, now: real)
    ensures
      var s' := ReconcileAll(s, visits, now).state;
      |s'.reg.byId| == |s.reg.byId| + s'.spawned - s.spawned - LostDaemons(s, visits, now)
      && s'.terminated == s.terminated
    decreases |visits|
  {
    if visits != [] {
      VisitBalance(s, visits[0], now);
      var step := Reconcile(s, visits[0], now);
      if !step.raised {
        VisitsBalance(step.state, visits[1..], now);
      }
    }
  }

  /** Registered daemons = spawned - terminated - failed restarts, over every run. */
  lemma {:induction false} DaemonsAreConserved(s: State, sweeps: seq<SweepInput>)
    ensures
      var s' := Run(s, sweeps);
      |s'.reg.byId| - |s.reg.byId| ==
      (s'.spawned - s.spawned) - (s'.terminated - s.terminated) - LostInRun(s, sweeps)
    decreases |sweeps|
  {
    if sweeps != [] {
      var active := ActiveVisits(sweeps[0].visits);
      var s0 := Swept(s, active);
      var drop := Orphans(s, Keys(active));
      assert (s.reg.byId - drop).Keys == s.reg.byId.Keys - drop;
      VisitsBalance(s0, active, sweeps[0].now);
      DaemonsAreConserved(Sweep(s, sweeps[0]).state, sweeps[1..]);
    }
  }
}
