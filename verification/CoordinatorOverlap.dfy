/** Accounts that have both a daemon and a retry entry: when a sweep leaves one, and runs
    that lead there. */
module CoordinatorOverlap {
  import opened Common
  import opened Registry
  import opened Coordinator
  import opened CoordinatorSafety
  import opened CoordinatorBackoff

  ghost predicate Overlaps(s: State, k: AccountKey) {
    AnyDaemon(s, k) && k in s.nextRetry
  }

  /** A daemon of the account runs under another provider than the one the visit maps to. */
  ghost predicate RunsElsewhere(s: State, v: Visit) {
    exists p :: MapProvider(v.account.provider) != Some(p) && DaemonId(v.account.key, p) in s.reg.byId
  }

  /** The visit fails beside such a daemon, or leaves an account that had both as it is. */
  ghost predicate LeavesBoth(s: State, v: Visit, now: real) {
    match Decide(s, v, now)
    case Failed(_) => RunsElsewhere(s, v)
    case InBackoff => Overlaps(s, v.account.key)
    case Kept => Overlaps(s, v.account.key)
    case _ => false
  }

  lemma SameForSameDaemons(s: State, s': State, k: AccountKey)
    requires SameFor(s, s', k)
    ensures forall p :: DaemonId(k, p) in s.reg.byId <==> DaemonId(k, p) in s'.reg.byId
    ensures Overlaps(s', k) <==> Overlaps(s, k)
  {
    assert Lookup(s.nextRetry, k) == Lookup(s'.nextRetry, k);
    forall p
      ensures DaemonId(k, p) in s.reg.byId <==> DaemonId(k, p) in s'.reg.byId
    {
      assert Lookup(s.reg.byId, DaemonId(k, p)) == Lookup(s'.reg.byId, DaemonId(k, p));
    }
  }

  lemma SameForLeavesBoth(s: State, s': State, v: Visit, now: real)
    requires SameFor(s, s', v.account.key)
    ensures LeavesBoth(s', v, now) <==> LeavesBoth(s, v, now)
  {
    SameForSameDecision(s, s', v, now);
    SameForSameDaemons(s, s', v.account.key);
  }

  lemma FailedVisitOverlapsIff(s: State, v: Visit, now: real)
    requires Inv(s) && Decide(s, v, now).Failed?
    ensures Overlaps(Reconcile(s, v, now).state, v.account.key) <==> RunsElsewhere(s, v)
  {
    var s', k := Reconcile(s, v, now).state, v.account.key;
    RegistryByVerdict(s, v, now);
    ByIdAfter(s.reg, v);
    forall p
      ensures DaemonId(k, p) in s'.reg.byId <==> DaemonId(k, p) in s.reg.byId && MapProvider(v.account.provider) != Some(p)
    {
    }
    LedgerAfter(s, v, now);
    assert k in s'.nextRetry;
  }

  lemma VisitOverlapsIff(s: State, v: Visit, now: real)
    requires Inv(s)
    ensures Overlaps(Reconcile(s, v, now).state, v.account.key) <==> LeavesBoth(s, v, now)
  {
    if Decide(s, v, now).Failed? {
      FailedVisitOverlapsIff(s, v, now);
    } else {
      LedgerAfter(s, v, now);
    }
  }

  /** Visit `i` is the account's; reached, it leaves both, or not reached, both were there. */
  ghost predicate BothAfter(s: State, visits: seq<Visit>, now: real, i: int)
    requires 0 <= i < |visits|
  {
    if Reached(s, visits, now, i) then LeavesBoth(s, visits[i], now) else Overlaps(s, visits[i].account.key)
  }

  lemma {:induction false} VisitsOverlapIff(s: State, visits: seq<Visit>, now: real, i: int)
    requires Inv(s) && DistinctKeys(visits) && 0 <= i < |visits|
    ensures Overlaps(ReconcileAll(s, visits, now).state, visits[i].account.key) <==> BothAfter(s, visits, now, i)
    decreases |visits|
  {
    var k, rest, step := visits[i].account.key, visits[1..], Reconcile(s, visits[0], now);
    VisitRaises(s, visits[0], now);
    VisitKeepsInv(s, visits[0], now);
    if i == 0 {
      VisitOverlapsIff(s, visits[0], now);
      if !step.raised {
        assert forall w :: w in rest ==> w.account.key != k;
        VisitsAreLocal(step.state, rest, now, k);
        SameForSameDaemons(step.state, ReconcileAll(step.state, rest, now).state, k);
      }
    } else {
      VisitIsLocal(s, visits[0], now, k);
      SameForSameDaemons(s, step.state, k);
      if !step.raised {
        VisitsOverlapIff(step.state, rest, now, i - 1);
        ReachedBehind(s, visits, now, i);
        SameForLeavesBoth(s, step.state, visits[i], now);
      }
    }
  }

  lemma SweptReached(s: State, visits: seq<Visit>, now: real, i: int)
    requires 0 <= i < |visits|
    ensures BothAfter(Swept(s, visits), visits, now, i) <==> BothAfter(s, visits, now, i)
  {
    var s0 := Swept(s, visits);
    forall j | 0 <= j < |visits|
      ensures Overflows(s0, visits[j], now) <==> Overflows(s, visits[j], now)
    {
      SweptKeepsActive(s, visits, visits[j].account.key);
      SameForSameOverflow(s, s0, visits[j], now);
    }
    SweptKeepsActive(s, visits, visits[i].account.key);
    SameForLeavesBoth(s, s0, visits[i], now);
    SameForSameDaemons(s, s0, visits[i].account.key);
  }

  lemma ActiveOverlapsIff(s: State, input: SweepInput, i: int)
    requires Inv(s) && DistinctKeys(ActiveVisits(input.visits)) && 0 <= i < |ActiveVisits(input.visits)|
    ensures Overlaps(Sweep(s, input).state, ActiveVisits(input.visits)[i].account.key) <==>
            BothAfter(s, ActiveVisits(input.visits), input.now, i)
  {
    var active, now := ActiveVisits(input.visits), input.now;
    SweptKeepsInv(s, active);
    VisitsOverlapIff(Swept(s, active), active, now, i);
    SweptReached(s, active, now, i);
    SameForSameDaemons(ReconcileAll(Swept(s, active), active, now).state, Sweep(s, input).state, active[i].account.key);
  }

  /** Visit `i` is the account's, and both are there after it. */
  ghost predicate OverlapsAt(s: State, visits: seq<Visit>, now: real, i: int, k: AccountKey) {
    0 <= i < |visits| && visits[i].account.key == k && BothAfter(s, visits, now, i)
  }

  /** Every sweep, whatever state it starts in and whether or not it raises, leaves an
      account with both a daemon and a retry entry exactly if it is active and
      - its visit is reached and fails while a daemon runs under another provider, or
      - both were there before and its visit is waiting, keeps the daemon or is not reached. */
  lemma {:induction false} SweepOverlapsIff(s: State, input: SweepInput, k: AccountKey)
    requires Inv(s) && DistinctKeys(ActiveVisits(input.visits))
    ensures Overlaps(Sweep(s, input).state, k) <==> exists i :: OverlapsAt(s, ActiveVisits(input.visits), input.now, i, k)
  {
    var active := ActiveVisits(input.visits);
    if i :| 0 <= i < |active| && active[i].account.key == k {
      ActiveOverlapsIff(s, input, i);
      assert OverlapsAt(s, active, input.now, i, k) <==> BothAfter(s, active, input.now, i);
      if j :| OverlapsAt(s, active, input.now, j, k) {
        assert j == i;
      }
    } else {
      SweepIsSafe(s, input);
      assert k !in Keys(active);
    }
  }

  // ---------- Runs that lead there ----------

  /** The account's only daemon is current for `a`, and a retry entry is there as well. */
  ghost predicate Stuck(s: State, a: Account, p: Provider) {
    && MapProvider(a.provider) == Some(p) && s.reg.byId.Keys == {DaemonId(a.key, p)}
    && Lookup(s.hashes, a.key) == Some(Fingerprint(a)) && a.key in s.nextRetry
  }

  lemma FirstSpawn(v: Visit, p: Provider, now: real)
    requires v.account.active && MapProvider(v.account.provider) == Some(p) && v.outcome.createOk && v.outcome.startOk
    ensures
      var s := Sweep(INITIAL, SweepInput([v], now)).state;
      && s.reg.byId.Keys == {DaemonId(v.account.key, p)} && s.nextRetry == map[] && s.failures == map[]
      && s.hashes == map[v.account.key := Fingerprint(v.account)]
  {
    SweepOfOne(INITIAL, v, now);
    ByIdAfter(INITIAL.reg, v);
    assert Decide(INITIAL, v, now) == Spawned;
  }

  lemma FirstFailure(s: State, a: Account, w: Visit, p: Provider, now: real)
    requires s.reg.byId.Keys == {DaemonId(a.key, p)} && s.nextRetry == map[] && s.failures == map[]
    requires s.hashes == map[a.key := Fingerprint(a)] && MapProvider(a.provider) == Some(p)
    requires w.account.key == a.key && w.account.active && MapProvider(w.account.provider) != Some(p)
    requires MapProvider(w.account.provider).Some? ==> !(w.outcome.createOk && w.outcome.startOk)
    ensures Stuck(Sweep(s, SweepInput([w], now)).state, a, p)
  {
    SweepOfOne(s, w, now);
    ByIdAfter(s.reg, w);
    assert Decide(s, w, now) == Failed(false);
    LedgerAfter(s, w, now);
  }

  /** A change of provider that fails, undone again. */
  ghost predicate FailedChange(v: Visit, w: Visit, p: Provider) {
    && v.account.key == w.account.key && v.account.active && w.account.active
    && MapProvider(v.account.provider) == Some(p) && v.outcome.createOk && v.outcome.startOk
    && MapProvider(w.account.provider) != Some(p)
    && (MapProvider(w.account.provider).Some? ==> !(w.outcome.createOk && w.outcome.startOk))
  }

  lemma FailedChangeSticks(v: Visit, w: Visit, p: Provider, t: real, u: real)
    requires FailedChange(v, w, p)
    ensures Stuck(Run(INITIAL, [SweepInput([v], t), SweepInput([w], u)]), v.account, p)
  {
    var first, second := SweepInput([v], t), SweepInput([w], u);
    var s := Sweep(INITIAL, first).state;
    assert [first, second][1..] == [second] && [second][1..] == [];
    assert Run(INITIAL, [first, second]) == Run(s, [second]) == Run(Sweep(s, second).state, []);
    FirstSpawn(v, p, t);
    FirstFailure(s, v.account, w, p, u);
  }

  /** From the start on: one change of provider and one failing visit lead to it. */
  lemma {:induction false} ProviderChangeOverlaps(v: Visit, w: Visit, p: Provider, t: real, u: real)
    requires FailedChange(v, w, p)
    ensures Overlaps(Run(INITIAL, [SweepInput([v], t), SweepInput([w], u)]), v.account.key)
  {
    FailedChangeSticks(v, w, p, t, u);
    assert DaemonId(v.account.key, p) in Run(INITIAL, [SweepInput([v], t), SweepInput([w], u)]).reg.byId;
  }

  lemma StuckSweep(s: State, v: Visit, p: Provider, now: real)
    requires Stuck(s, v.account, p) && v.account.active
    ensures Stuck(Sweep(s, SweepInput([v], now)).state, v.account, p)
    ensures Decide(s, v, now) == if now < s.nextRetry[v.account.key] then InBackoff else Kept
  {
    assert DaemonId(v.account.key, p) in s.reg.byId;
    assert Lookup(s.hashes, v.account.key) == Some(Fingerprint(v.account));
    SweepOfOne(s, v, now);
  }

  /** Switching back does not help: the daemon is found current, so the visit clears
      nothing, and the retry entry stays through any number of sweeps at any times. */
  lemma {:induction false} StuckForGood(s: State, a: Account, p: Provider, later: seq<SweepInput>)
    requires Stuck(s, a, p) && a.active
    requires forall i :: 0 <= i < |later| ==> |later[i].visits| == 1 && later[i].visits[0].account == a
    ensures Stuck(Run(s, later), a, p)
    decreases |later|
  {
    if later != [] {
      var v := later[0].visits[0];
      assert later[0].visits == [v] && v.account == a;
      assert later[0] == SweepInput([v], later[0].now);
      StuckSweep(s, v, p, later[0].now);
      StuckForGood(Sweep(s, later[0]).state, a, p, later[1..]);
    }
  }

  lemma {:induction false} SwitchBackKeepsOverlap(v: Visit, w: Visit, p: Provider, t: real, u: real, later: seq<SweepInput>)
    requires FailedChange(v, w, p)
    requires forall i :: 0 <= i < |later| ==> |later[i].visits| == 1 && later[i].visits[0].account == v.account
    ensures Overlaps(Run(INITIAL, [SweepInput([v], t), SweepInput([w], u)] + later), v.account.key)
  {
    var two := [SweepInput([v], t), SweepInput([w], u)];
    FailedChangeSticks(v, w, p, t, u);
    StuckForGood(Run(INITIAL, two), v.account, p, later);
    RunInTwo(INITIAL, two, later);
    assert DaemonId(v.account.key, p) in Run(INITIAL, two + later).reg.byId;
  }
}
