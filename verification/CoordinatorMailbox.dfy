/** The address index of the registry under the coordinator. */
module CoordinatorMailbox {
  import opened Common
  import opened Registry
  import opened Coordinator
  import opened CoordinatorSafety
  import opened CoordinatorBackoff

  function BoxOf(a: Account): Option<Mailbox> {
    match MapProvider(a.provider)
    case None => None
    case Some(p) => Some(Mailbox(p, Lower(a.email)))
  }

  type Homes = AccountKey -> Option<Mailbox>

  /** Every account keeps the mailbox that `home` gives it. */
  ghost predicate AtHome(visits: seq<Visit>, home: Homes, known: set<AccountKey>) {
    forall v :: v in visits ==> v.account.key in known && BoxOf(v.account) == home(v.account.key)
  }

  ghost predicate Unshared(home: Homes, known: set<AccountKey>) {
    forall k, l :: k in known && l in known && k != l && home(k).Some? ==> home(k) != home(l)
  }

  ghost predicate AddressInv(r: Index, home: Homes, known: set<AccountKey>) {
    Exact(r) && forall id :: id in r.byId ==> id.key in known && home(id.key) == Some(r.byId[id].Box())
  }

  /** A free id at the account's own address always fits. */
  lemma FreeIdFits(r: Index, d: Daemon, home: Homes, known: set<AccountKey>)
    requires AddressInv(r, home, known) && Unshared(home, known)
    requires d.Id() !in r.byId && d.key in known && home(d.key) == Some(d.Box())
    ensures Fits(r, d) && AddressInv(Registered(r, d), home, known)
  {
    assert forall m :: m in r.byMailbox ==> r.byMailbox[m].Id() in r.byId && home(r.byMailbox[m].key) == Some(m);
    RegisterExact(r, d);
  }

  lemma UnregisterKeepsAddresses(r: Index, id: DaemonId, home: Homes, known: set<AccountKey>)
    requires AddressInv(r, home, known)
    ensures AddressInv(Unregistered(r, id), home, known)
  {
    UnregisterExact(r, id);
  }

  lemma LaunchKeepsAddresses(r: Index, d: Daemon, o: Outcome, home: Homes, known: set<AccountKey>)
    requires AddressInv(r, home, known) && Unshared(home, known) && d.key in known && home(d.key) == Some(d.Box())
    ensures AddressInv(Launched(r, d, o), home, known)
  {
    UnregisterKeepsAddresses(r, d.Id(), home, known);
    FreeIdFits(Unregistered(r, d.Id()), d, home, known);
  }

  lemma VisitKeepsAddresses(r: Index, v: Visit, home: Homes, known: set<AccountKey>)
    requires AddressInv(r, home, known) && Unshared(home, known) && AtHome([v], home, known)
    ensures AddressInv(RegistryAfter(r, v), home, known)
  {
    assert v in [v];
    match MapProvider(v.account.provider) {
      case None =>
      case Some(p) =>
        var d := DaemonFor(v.account, p);
        LaunchKeepsAddresses(r, d, v.outcome, home, known);
        UnregisterKeepsAddresses(Launched(r, d, v.outcome), d.Id(), home, known);
    }
  }

  lemma {:induction false} VisitsKeepAddresses(s: State, visits: seq<Visit>, now: real, home: Homes, known: set<AccountKey>)
    requires AddressInv(s.reg, home, known) && Unshared(home, known) && AtHome(visits, home, known)
    ensures AddressInv(ReconcileAll(s, visits, now).state.reg, home, known)
    decreases |visits|
  {
    if visits != [] {
      VisitKeepsAddresses(s.reg, visits[0], home, known);
      var step := Reconcile(s, visits[0], now);
      if !step.raised {
        VisitsKeepAddresses(step.state, visits[1..], now, home, known);
      }
    }
  }

  lemma TerminateKeepsAddresses(s: State, drop: set<DaemonId>, home: Homes, known: set<AccountKey>)
    requires AddressInv(s.reg, home, known) && drop <= s.reg.byId.Keys
    ensures AddressInv(Terminate(s, drop).reg, home, known)
    decreases |drop|
  {
    if drop == {} {
      TerminateNone(s);
    } else {
      var id :| id in drop;
      TerminateFirst(s, drop, id);
      UnregisterKeepsAddresses(s.reg, id, home, known);
      TerminateKeepsAddresses(Dropped(s, id), drop - {id}, home, known);
    }
  }

  /** Over every run in which accounts keep their mailbox and no two share one, every
      registered daemon is found under its address and under no other. */
  lemma {:induction false} AddressIndexStaysExact(s: State, sweeps: seq<SweepInput>, home: Homes, known: set<AccountKey>)
    requires AddressInv(s.reg, home, known) && Unshared(home, known)
    requires forall i :: 0 <= i < |sweeps| ==> AtHome(sweeps[i].visits, home, known)
    ensures Exact(Run(s, sweeps).reg)
    decreases |sweeps|
  {
    if sweeps != [] {
      var active := ActiveVisits(sweeps[0].visits);
      assert AtHome(sweeps[0].visits, home, known);
      forall v | v in active
        ensures v in sweeps[0].visits
      {
        ActiveVisitsAre(sweeps[0].visits, v);
      }
      TerminateKeepsAddresses(s, Orphans(s, Keys(active)), home, known);
      VisitsKeepAddresses(Swept(s, active), active, sweeps[0].now, home, known);
      AddressIndexStaysExact(Sweep(s, sweeps[0]).state, sweeps[1..], home, known);
    }
  }

  // ---------- The registry calls of a sweep ----------

  function LaunchCalls(r: Index, d: Daemon, o: Outcome): seq<RegistryOp> {
    var restart := d.Id() in r.byId;
    if restart && !o.stopOk then []
    else (if restart then [RegistryOp.Unregister(d.Id())] else []) + (if o.createOk then [RegistryOp.Register(d)] else [])
  }

  /** What one visit asks of the registry, in order. */
  function VisitCalls(s: State, v: Visit, now: real): seq<RegistryOp> {
    if Decide(s, v, now).InBackoff? || Decide(s, v, now).Kept? then []
    else match MapProvider(v.account.provider)
      case None => []
      case Some(p) =>
        var d := DaemonFor(v.account, p);
        LaunchCalls(s.reg, d, v.outcome) +
        if LaunchOk(d.Id() in s.reg.byId, v.outcome) then [] else [RegistryOp.Unregister(d.Id())]
  }

  /** What the visits of a sweep ask of the registry, in order. */
  function VisitsCalls(s: State, visits: seq<Visit>, now: real): seq<RegistryOp>
    decreases |visits|
  {
    if visits == [] then []
    else
      var step := Reconcile(s, visits[0], now);
      VisitCalls(s, visits[0], now) + if step.raised then [] else VisitsCalls(step.state, visits[1..], now)
  }

  /** Every registration is made under an id that is free at that moment. */
  ghost predicate FreeIds(r: Index, ops: seq<RegistryOp>)
    decreases |ops|
  {
    ops != [] ==> (ops[0].Register? ==> ops[0].daemon.Id() !in r.byId) && FreeIds(Apply(r, ops[0]), ops[1..])
  }

  /** Every registration is made under an address that is free at that moment. */
  ghost predicate FreeAddresses(r: Index, ops: seq<RegistryOp>)
    decreases |ops|
  {
    ops != [] ==> (ops[0].Register? ==> ops[0].daemon.Box() !in r.byMailbox) && FreeAddresses(Apply(r, ops[0]), ops[1..])
  }

  lemma {:induction false} CallsInTwo(r: Index, first: seq<RegistryOp>, rest: seq<RegistryOp>)
    ensures ApplyAll(r, first + rest) == ApplyAll(ApplyAll(r, first), rest)
    ensures FreeIds(r, first + rest) <==> FreeIds(r, first) && FreeIds(ApplyAll(r, first), rest)
    decreases |first|
  {
    if first == [] {
      assert first + rest == rest;
    } else {
      assert (first + rest)[0] == first[0] && (first + rest)[1..] == first[1..] + rest;
      CallsInTwo(Apply(r, first[0]), first[1..], rest);
    }
  }

  lemma OneCall(r: Index, op: RegistryOp)
    ensures ApplyAll(r, [op]) == Apply(r, op)
    ensures FreeIds(r, [op]) <==> op.Register? ==> op.daemon.Id() !in r.byId
  {
    assert [op][1..] == [];
    assert ApplyAll(Apply(r, op), []) == Apply(r, op);
  }

  lemma LaunchCallsAre(r: Index, d: Daemon, o: Outcome)
    ensures ApplyAll(r, LaunchCalls(r, d, o)) == Launched(r, d, o) && FreeIds(r, LaunchCalls(r, d, o))
  {
    var r' := Unregistered(r, d.Id());
    OneCall(r, RegistryOp.Unregister(d.Id()));
    OneCall(r', RegistryOp.Register(d));
    if d.Id() in r.byId {
      CallsInTwo(r, [RegistryOp.Unregister(d.Id())], if o.createOk then [RegistryOp.Register(d)] else []);
    } else {
      assert [] + LaunchCalls(r, d, o) == LaunchCalls(r, d, o);
    }
  }

  lemma VisitCallsAre(s: State, v: Visit, now: real)
    ensures ApplyAll(s.reg, VisitCalls(s, v, now)) == Reconcile(s, v, now).state.reg
    ensures FreeIds(s.reg, VisitCalls(s, v, now))
  {
    if Decide(s, v, now).InBackoff? || Decide(s, v, now).Kept? {
    } else if MapProvider(v.account.provider).Some? {
      var d := DaemonFor(v.account, MapProvider(v.account.provider).value);
      LaunchCallsAre(s.reg, d, v.outcome);
      OneCall(Launched(s.reg, d, v.outcome), RegistryOp.Unregister(d.Id()));
      CallsInTwo(s.reg, LaunchCalls(s.reg, d, v.outcome),
                 if LaunchOk(d.Id() in s.reg.byId, v.outcome) then [] else [RegistryOp.Unregister(d.Id())]);
    }
  }

  lemma {:induction false} VisitsCallsAre(s: State, visits: seq<Visit>, now: real)
    ensures ApplyAll(s.reg, VisitsCalls(s, visits, now)) == ReconcileAll(s, visits, now).state.reg
    ensures FreeIds(s.reg, VisitsCalls(s, visits, now))
    decreases |visits|
  {
    if visits != [] {
      var step := Reconcile(s, visits[0], now);
      var first := VisitCalls(s, visits[0], now);
      VisitCallsAre(s, visits[0], now);
      if step.raised {
        assert first + [] == first;
      } else {
        VisitsCallsAre(step.state, visits[1..], now);
        CallsInTwo(s.reg, first, VisitsCalls(step.state, visits[1..], now));
      }
    }
  }

  /** From any state, whatever the accounts' addresses: the registry after a sweep is the
      result of its calls, and the sweep never registers over an id in use. */
  lemma {:induction false} SweepRegistersFreeIds(s: State, input: SweepInput)
    ensures
      var s0 := Swept(s, ActiveVisits(input.visits));
      var calls := VisitsCalls(s0, ActiveVisits(input.visits), input.now);
      ApplyAll(s0.reg, calls) == Sweep(s, input).state.reg && FreeIds(s0.reg, calls)
  {
    var active := ActiveVisits(input.visits);
    VisitsCallsAre(Swept(s, active), active, input.now);
  }

  lemma {:induction false} FitsIffFreeAddresses(r: Index, ops: seq<RegistryOp>)
    requires Exact(r) && FreeIds(r, ops)
    ensures EveryRegisterFits(r, ops) <==> FreeAddresses(r, ops)
    decreases |ops|
  {
    if ops != [] {
      match ops[0] {
        case Register(d) => RegisterExact(r, d);
        case Unregister(id) => UnregisterExact(r, id);
        case Clear =>
      }
      if ops[0].Register? ==> Fits(r, ops[0].daemon) {
        FitsIffFreeAddresses(Apply(r, ops[0]), ops[1..]);
      }
    }
  }

  lemma {:induction false} TerminateKeepsExact(s: State, drop: set<DaemonId>)
    requires Exact(s.reg) && drop <= s.reg.byId.Keys
    ensures Exact(Terminate(s, drop).reg)
    decreases |drop|
  {
    if drop == {} {
      TerminateNone(s);
    } else {
      var id :| id in drop;
      TerminateFirst(s, drop, id);
      UnregisterExact(s.reg, id);
      TerminateKeepsExact(Dropped(s, id), drop - {id});
    }
  }

  // ---------- The same, read off the state before the visits ----------

  ghost predicate Acts(s: State, v: Visit, now: real) {
    MapProvider(v.account.provider).Some? && !Decide(s, v, now).InBackoff? && !Decide(s, v, now).Kept?
  }

  /** The visit gets as far as registering a daemon, whether or not it then starts. */
  ghost predicate Registers(s: State, v: Visit, now: real) {
    Acts(s, v, now) && v.outcome.createOk && (NewDaemon(v).Id() in s.reg.byId ==> v.outcome.stopOk)
  }

  ghost predicate Launches(s: State, v: Visit, now: real) {
    Decide(s, v, now).Spawned? || Decide(s, v, now).Restarted?
  }

  function NewDaemon(v: Visit): Daemon
    requires MapProvider(v.account.provider).Some?
  {
    DaemonFor(v.account, MapProvider(v.account.provider).value)
  }

  /** Daemon `id` is the visit's own, or an earlier visit takes it away. */
  ghost predicate Leaves(s: State, visits: seq<Visit>, now: real, i: int, id: DaemonId)
    requires 0 <= i < |visits| && Acts(s, visits[i], now)
  {
    id == NewDaemon(visits[i]).Id() || exists j :: TakesAway(s, visits, now, i, j, id)
  }

  ghost predicate TakesAway(s: State, visits: seq<Visit>, now: real, i: int, j: int, id: DaemonId)
    requires 0 <= i < |visits|
  {
    0 <= j < i && Acts(s, visits[j], now) && NewDaemon(visits[j]).Id() == id
  }

  /** Nobody moves into the address of visit `i` before it. */
  ghost predicate NoneMovesIn(s: State, visits: seq<Visit>, now: real, i: int)
    requires 0 <= i < |visits| && Acts(s, visits[i], now)
  {
    forall j :: 0 <= j < i && Launches(s, visits[j], now) ==> NewDaemon(visits[j]).Box() != NewDaemon(visits[i]).Box()
  }

  /** Every daemon at the address of visit `i` goes. */
  ghost predicate AllLeave(s: State, visits: seq<Visit>, now: real, i: int)
    requires 0 <= i < |visits| && Acts(s, visits[i], now)
  {
    forall id :: id in s.reg.byId && s.reg.byId[id].Box() == NewDaemon(visits[i]).Box() ==> Leaves(s, visits, now, i, id)
  }

  ghost predicate Clears(s: State, visits: seq<Visit>, now: real, i: int)
    requires 0 <= i < |visits| && Acts(s, visits[i], now)
  {
    AllLeave(s, visits, now, i) && NoneMovesIn(s, visits, now, i)
  }

  ghost predicate ClearAt(s: State, visits: seq<Visit>, now: real, i: int)
    requires 0 <= i < |visits|
  {
    Reached(s, visits, now, i) && Registers(s, visits[i], now) ==> Clears(s, visits, now, i)
  }

  /** Every visit that is reached and registers a daemon finds its address clear. */
  ghost predicate AllClear(s: State, visits: seq<Visit>, now: real) {
    forall i :: 0 <= i < |visits| ==> ClearAt(s, visits, now, i)
  }

  lemma {:induction false} FreeInTwo(r: Index, first: seq<RegistryOp>, rest: seq<RegistryOp>)
    ensures FreeAddresses(r, first + rest) <==> FreeAddresses(r, first) && FreeAddresses(ApplyAll(r, first), rest)
    decreases |first|
  {
    if first == [] {
      assert first + rest == rest;
    } else {
      assert (first + rest)[0] == first[0] && (first + rest)[1..] == first[1..] + rest;
      FreeInTwo(Apply(r, first[0]), first[1..], rest);
    }
  }

  lemma FreeOne(r: Index, op: RegistryOp)
    ensures FreeAddresses(r, [op]) <==> op.Register? ==> op.daemon.Box() !in r.byMailbox
  {
    assert [op][1..] == [];
  }

  lemma LaunchIsFreeIff(r: Index, d: Daemon, o: Outcome)
    ensures FreeAddresses(r, LaunchCalls(r, d, o)) <==>
            (o.createOk && (d.Id() in r.byId ==> o.stopOk) ==> d.Box() !in Unregistered(r, d.Id()).byMailbox)
  {
    var gone, come := RegistryOp.Unregister(d.Id()), RegistryOp.Register(d);
    FreeOne(r, gone);
    OneCall(r, gone);
    FreeOne(Unregistered(r, d.Id()), come);
    if d.Id() in r.byId {
      FreeInTwo(r, [gone], if o.createOk then [come] else []);
    } else {
      assert [] + LaunchCalls(r, d, o) == LaunchCalls(r, d, o);
    }
  }

  lemma VisitIsFreeIff(s: State, v: Visit, now: real)
    ensures FreeAddresses(s.reg, VisitCalls(s, v, now)) <==>
            (Registers(s, v, now) ==> NewDaemon(v).Box() !in Unregistered(s.reg, NewDaemon(v).Id()).byMailbox)
  {
    if Acts(s, v, now) {
      var d := NewDaemon(v);
      var gone := RegistryOp.Unregister(d.Id());
      var first := LaunchCalls(s.reg, d, v.outcome);
      var last: seq<RegistryOp> := if LaunchOk(d.Id() in s.reg.byId, v.outcome) then [] else [gone];
      LaunchIsFreeIff(s.reg, d, v.outcome);
      FreeOne(ApplyAll(s.reg, first), gone);
      FreeInTwo(s.reg, first, last);
      assert VisitCalls(s, v, now) == first + last;
    }
  }

  /** In an exact registry an address is free once a daemon is gone exactly if no other
      daemon has it. */
  lemma FreeIff(r: Index, d: Daemon)
    requires Exact(r)
    ensures d.Box() !in Unregistered(r, d.Id()).byMailbox <==>
            forall id :: id in r.byId && r.byId[id].Box() == d.Box() ==> id == d.Id()
  {
    if d.Box() in r.byMailbox {
      assert r.byMailbox[d.Box()].Id() in r.byId;
    }
    if id :| id in r.byId && r.byId[id].Box() == d.Box() && id != d.Id() {
      assert r.byMailbox[d.Box()] == r.byId[id];
    }
  }

  lemma FirstIsClearIff(s: State, visits: seq<Visit>, now: real)
    requires Exact(s.reg) && visits != []
    ensures ClearAt(s, visits, now, 0) <==> FreeAddresses(s.reg, VisitCalls(s, visits[0], now))
  {
    VisitIsFreeIff(s, visits[0], now);
    if Registers(s, visits[0], now) {
      FreeIff(s.reg, NewDaemon(visits[0]));
    }
  }

  /** What the first visit does to the id index, in terms of acting and launching. */
  lemma ByIdAfterFirst(s: State, v: Visit, now: real)
    ensures
      var byId := Reconcile(s, v, now).state.reg.byId;
      && (!Acts(s, v, now) ==> byId == s.reg.byId && !Launches(s, v, now))
      && (Acts(s, v, now) && Launches(s, v, now) ==> byId == s.reg.byId[NewDaemon(v).Id() := NewDaemon(v)])
      && (Acts(s, v, now) && !Launches(s, v, now) ==> byId == s.reg.byId - {NewDaemon(v).Id()})
  {
    RegistryByVerdict(s, v, now);
    ByIdAfter(s.reg, v);
  }

  lemma SameForSameActs(s: State, s': State, v: Visit, now: real)
    requires SameFor(s, s', v.account.key)
    ensures Acts(s', v, now) <==> Acts(s, v, now)
    ensures Registers(s', v, now) <==> Registers(s, v, now)
    ensures Launches(s', v, now) <==> Launches(s, v, now)
  {
    SameForSameDecision(s, s', v, now);
    if MapProvider(v.account.provider).Some? {
      var id := NewDaemon(v).Id();
      assert Lookup(s.reg.byId, DaemonId(id.key, id.provider)) == Lookup(s'.reg.byId, DaemonId(id.key, id.provider));
    }
  }

  /** The other visits find the same decisions after the first one. */
  ghost predicate SameActs(s: State, s1: State, visits: seq<Visit>, now: real) {
    forall j :: 0 < j < |visits| ==>
      && (Acts(s1, visits[j], now) <==> Acts(s, visits[j], now))
      && (Registers(s1, visits[j], now) <==> Registers(s, visits[j], now))
      && (Launches(s1, visits[j], now) <==> Launches(s, visits[j], now))
  }

  lemma FirstIsLocal(s: State, visits: seq<Visit>, now: real)
    requires visits != [] && DistinctKeys(visits)
    ensures SameActs(s, Reconcile(s, visits[0], now).state, visits, now)
  {
    var s1 := Reconcile(s, visits[0], now).state;
    forall j | 0 < j < |visits|
      ensures Acts(s1, visits[j], now) <==> Acts(s, visits[j], now)
      ensures Registers(s1, visits[j], now) <==> Registers(s, visits[j], now)
      ensures Launches(s1, visits[j], now) <==> Launches(s, visits[j], now)
    {
      VisitIsLocal(s, visits[0], now, visits[j].account.key);
      SameForSameActs(s, s1, visits[j], now);
    }
  }

  lemma LeavesBehindIff(s: State, s1: State, visits: seq<Visit>, now: real, i: int, id: DaemonId)
    requires 0 < i < |visits| && SameActs(s, s1, visits, now) && Acts(s, visits[i], now) && Acts(s1, visits[i], now)
    ensures Leaves(s, visits, now, i, id) <==>
            Leaves(s1, visits[1..], now, i - 1, id) || (Acts(s, visits[0], now) && id == NewDaemon(visits[0]).Id())
  {
    var rest, n := visits[1..], i - 1;
    assert forall j :: 0 <= j < |rest| ==> rest[j] == visits[j + 1];
    forall j | 0 < j < i
      ensures TakesAway(s, visits, now, i, j, id) <==> TakesAway(s1, rest, now, n, j - 1, id)
    {
      assert rest[j - 1] == visits[j];
    }
    if j :| TakesAway(s1, rest, now, n, j, id) {
      assert TakesAway(s, visits, now, i, j + 1, id);
    }
    if j :| TakesAway(s, visits, now, i, j, id) {
      assert j > 0 ==> TakesAway(s1, rest, now, n, j - 1, id);
    }
    if Acts(s, visits[0], now) && id == NewDaemon(visits[0]).Id() {
      assert TakesAway(s, visits, now, i, 0, id);
    }
  }

  /** The first visit's daemon is not the business of any later one. */
  lemma FirstIsNotLeft(s1: State, visits: seq<Visit>, now: real, i: int)
    requires 0 < i < |visits| && DistinctKeys(visits) && Acts(s1, visits[i], now) && MapProvider(visits[0].account.provider).Some?
    ensures !Leaves(s1, visits[1..], now, i - 1, NewDaemon(visits[0]).Id())
  {
    var rest, n, id := visits[1..], i - 1, NewDaemon(visits[0]).Id();
    forall j
      ensures !TakesAway(s1, rest, now, n, j, id)
    {
      if 0 <= j < |rest| {
        assert rest[j] == visits[j + 1] && visits[j + 1].account.key != id.key;
      }
    }
  }

  lemma MovesInBehindIff(s: State, s1: State, visits: seq<Visit>, now: real, i: int)
    requires 0 < i < |visits| && SameActs(s, s1, visits, now) && Acts(s, visits[i], now) && Acts(s1, visits[i], now)
    ensures NoneMovesIn(s, visits, now, i) <==>
            && NoneMovesIn(s1, visits[1..], now, i - 1)
            && (Launches(s, visits[0], now) ==> NewDaemon(visits[0]).Box() != NewDaemon(visits[i]).Box())
  {
    var rest := visits[1..];
    assert forall j :: 0 <= j < |rest| ==> rest[j] == visits[j + 1];
    if NoneMovesIn(s, visits, now, i) {
      forall j | 0 <= j < i - 1 && Launches(s1, rest[j], now)
        ensures NewDaemon(rest[j]).Box() != NewDaemon(visits[i]).Box()
      {
        assert Launches(s, visits[j + 1], now);
      }
    }
    if NoneMovesIn(s1, rest, now, i - 1) {
      forall j | 0 < j < i && Launches(s, visits[j], now)
        ensures NewDaemon(visits[j]).Box() != NewDaemon(visits[i]).Box()
      {
        assert Launches(s1, rest[j - 1], now);
      }
    }
  }

  /** After the first visit its own daemon stands where it was put, the others as before. */
  lemma AllLeaveBehindIff(s: State, visits: seq<Visit>, now: real, i: int)
    requires 0 < i < |visits| && DistinctKeys(visits)
    requires Acts(s, visits[i], now) && Acts(Reconcile(s, visits[0], now).state, visits[i], now)
    ensures AllLeave(Reconcile(s, visits[0], now).state, visits[1..], now, i - 1) <==>
            && AllLeave(s, visits, now, i)
            && (Launches(s, visits[0], now) ==> NewDaemon(visits[0]).Box() != NewDaemon(visits[i]).Box())
  {
    var v, rest, s1 := visits[0], visits[1..], Reconcile(s, visits[0], now).state;
    FirstIsLocal(s, visits, now);
    ByIdAfterFirst(s, v, now);
    forall id
      ensures Leaves(s, visits, now, i, id) <==> Leaves(s1, rest, now, i - 1, id) || (Acts(s, v, now) && id == NewDaemon(v).Id())
    {
      LeavesBehindIff(s, s1, visits, now, i, id);
    }
    if Launches(s, v, now) {
      FirstIsNotLeft(s1, visits, now, i);
      assert s1.reg.byId[NewDaemon(v).Id()] == NewDaemon(v);
    }
  }

  lemma ClearsBehindIff(s: State, visits: seq<Visit>, now: real, i: int)
    requires 0 < i < |visits| && DistinctKeys(visits)
    requires Acts(s, visits[i], now) && Acts(Reconcile(s, visits[0], now).state, visits[i], now)
    ensures Clears(s, visits, now, i) <==> Clears(Reconcile(s, visits[0], now).state, visits[1..], now, i - 1)
  {
    FirstIsLocal(s, visits, now);
    AllLeaveBehindIff(s, visits, now, i);
    MovesInBehindIff(s, Reconcile(s, visits[0], now).state, visits, now, i);
  }

  lemma ClearBehindIff(s: State, visits: seq<Visit>, now: real, i: int)
    requires 0 < i < |visits| && DistinctKeys(visits) && !Reconcile(s, visits[0], now).raised
    ensures ClearAt(s, visits, now, i) <==> ClearAt(Reconcile(s, visits[0], now).state, visits[1..], now, i - 1)
  {
    var rest, s1 := visits[1..], Reconcile(s, visits[0], now).state;
    assert rest[i - 1] == visits[i];
    ReachedBehind(s, visits, now, i);
    FirstIsLocal(s, visits, now);
    if Registers(s, visits[i], now) {
      ClearsBehindIff(s, visits, now, i);
    }
  }

  lemma NotReachedIsClear(s: State, visits: seq<Visit>, now: real, i: int)
    requires 0 < i < |visits| && Reconcile(s, visits[0], now).raised
    ensures ClearAt(s, visits, now, i)
  {
    VisitRaises(s, visits[0], now);
    assert !Reached(s, visits, now, i);
  }

  lemma AllClearSplits(s: State, visits: seq<Visit>, now: real)
    requires Exact(s.reg) && DistinctKeys(visits) && visits != []
    ensures
      var step := Reconcile(s, visits[0], now);
      AllClear(s, visits, now) <==>
      FreeAddresses(s.reg, VisitCalls(s, visits[0], now)) && (!step.raised ==> AllClear(step.state, visits[1..], now))
  {
    var step := Reconcile(s, visits[0], now);
    FirstIsClearIff(s, visits, now);
    if step.raised {
      forall i | 0 < i < |visits|
        ensures ClearAt(s, visits, now, i)
      {
        NotReachedIsClear(s, visits, now, i);
      }
    } else {
      forall i | 0 < i < |visits|
        ensures ClearAt(s, visits, now, i) <==> ClearAt(step.state, visits[1..], now, i - 1)
      {
        ClearBehindIff(s, visits, now, i);
      }
      if AllClear(step.state, visits[1..], now) {
        forall i | 0 < i < |visits|
          ensures ClearAt(s, visits, now, i)
        {
          assert ClearAt(step.state, visits[1..], now, i - 1);
        }
      }
      if AllClear(s, visits, now) {
        forall i | 0 <= i < |visits[1..]|
          ensures ClearAt(step.state, visits[1..], now, i)
        {
          assert ClearAt(s, visits, now, i + 1);
        }
      }
    }
  }

  lemma FreeVisitKeepsExact(s: State, v: Visit, now: real)
    requires Exact(s.reg) && FreeAddresses(s.reg, VisitCalls(s, v, now))
    ensures Exact(Reconcile(s, v, now).state.reg)
  {
    var calls := VisitCalls(s, v, now);
    VisitCallsAre(s, v, now);
    FitsIffFreeAddresses(s.reg, calls);
    IndexesStayInverse(s.reg, calls);
    ExactAtEnd(s.reg, calls);
  }

  lemma {:induction false} ExactAtEnd(r: Index, ops: seq<RegistryOp>)
    requires ExactThroughout(r, ops)
    ensures Exact(ApplyAll(r, ops))
    decreases |ops|
  {
    if ops != [] {
      ExactAtEnd(Apply(r, ops[0]), ops[1..]);
    }
  }

  lemma VisitsAreFreeIff(s: State, visits: seq<Visit>, now: real)
    requires visits != []
    ensures
      var step := Reconcile(s, visits[0], now);
      FreeAddresses(s.reg, VisitsCalls(s, visits, now)) <==>
      && FreeAddresses(s.reg, VisitCalls(s, visits[0], now))
      && (!step.raised ==> FreeAddresses(step.state.reg, VisitsCalls(step.state, visits[1..], now)))
  {
    var step, first := Reconcile(s, visits[0], now), VisitCalls(s, visits[0], now);
    if step.raised {
      assert first + [] == first;
    } else {
      FreeInTwo(s.reg, first, VisitsCalls(step.state, visits[1..], now));
      VisitCallsAre(s, visits[0], now);
    }
  }

  lemma {:induction false} FreeIffAllClear(s: State, visits: seq<Visit>, now: real)
    requires Exact(s.reg) && DistinctKeys(visits)
    ensures FreeAddresses(s.reg, VisitsCalls(s, visits, now)) <==> AllClear(s, visits, now)
    decreases |visits|
  {
    if visits != [] {
      var step := Reconcile(s, visits[0], now);
      AllClearSplits(s, visits, now);
      VisitsAreFreeIff(s, visits, now);
      if !step.raised && FreeAddresses(s.reg, VisitCalls(s, visits[0], now)) {
        FreeVisitKeepsExact(s, visits[0], now);
        FreeIffAllClear(step.state, visits[1..], now);
      }
    }
  }

  /** A sweep keeps the two indexes inverse through all its calls exactly if, once the
      daemons of inactive accounts are gone, every active account that gets a daemon finds
      its address clear: whoever has it is restarted or dropped by an earlier visit, and no
      earlier visit moves in there. */
  lemma {:induction false} SweepKeepsRoutesIff(s: State, input: SweepInput)
    requires Exact(s.reg) && DistinctKeys(ActiveVisits(input.visits))
    ensures
      var s0 := Swept(s, ActiveVisits(input.visits));
      ExactThroughout(s0.reg, VisitsCalls(s0, ActiveVisits(input.visits), input.now)) <==>
      AllClear(s0, ActiveVisits(input.visits), input.now)
  {
    var active := ActiveVisits(input.visits);
    var s0 := Swept(s, active);
    var calls := VisitsCalls(s0, active, input.now);
    TerminateKeepsExact(s, Orphans(s, Keys(active)));
    SweepRegistersFreeIds(s, input);
    IndexesStayInverse(s0.reg, calls);
    FitsIffFreeAddresses(s0.reg, calls);
    FreeIffAllClear(s0, active, input.now);
  }

  /** Distinct addresses alone are not enough. When one account takes over the address
      that another gives up in the same sweep, its daemon ends up without a route. */
  lemma {:induction false} HandoverLosesRoute(s: State, v: Visit, w: Visit, p: Provider, now: real)
    requires v.account.key != w.account.key && v.outcome == w.outcome == Outcome(true, true, true)
    requires MapProvider(v.account.provider) == MapProvider(w.account.provider) == Some(p)
    requires v.account.key !in s.nextRetry && w.account.key !in s.nextRetry
    requires DaemonId(v.account.key, p) in s.reg.byId && DaemonId(w.account.key, p) in s.reg.byId
    requires v.account.key in s.hashes && s.hashes[v.account.key] != Fingerprint(v.account)
    requires w.account.key in s.hashes && s.hashes[w.account.key] != Fingerprint(w.account)
    // v moves to the address w had, w moves elsewhere.
    requires Lower(v.account.email) == Lower(s.reg.byId[DaemonId(w.account.key, p)].address) != Lower(w.account.email)
    ensures
      var r := ReconcileAll(s, [v, w], now).state.reg;
      var d := DaemonFor(v.account, p);
      Lookup(r.byId, d.Id()) == Some(d) && d.Box() !in r.byMailbox
  {
    var d, e := DaemonFor(v.account, p), DaemonId(w.account.key, p);
    assert Decide(s, v, now) == Restarted;
    var s1 := Reconcile(s, v, now).state;
    assert s1.reg == Registered(Unregistered(s.reg, d.Id()), d);
    VisitIsLocal(s, v, now, e.key);
    assert Lookup(s1.reg.byId, e) == Lookup(s.reg.byId, e);
    assert Lookup(s1.hashes, e.key) == Lookup(s.hashes, e.key) && Lookup(s1.nextRetry, e.key) == Lookup(s.nextRetry, e.key);
    assert Decide(s1, w, now) == Restarted;
    assert [v, w][1..] == [w] && [w][1..] == [];
    var r1 := Unregistered(s1.reg, e);
    assert d.Box() !in r1.byMailbox;
    var s2 := Reconcile(s1, w, now).state;
    assert ReconcileAll(s1, [w], now) == ReconcileAll(s2, [], now);
    assert ReconcileAll(s, [v, w], now) == ReconcileAll(s1, [w], now);
    assert s2.reg == Registered(r1, DaemonFor(w.account, p));
  }

  lemma SpawnTwo(v: Visit, w: Visit, p: Provider, now: real)
    requires v.account.key != w.account.key && v.outcome == w.outcome == Outcome(true, true, true)
    requires MapProvider(v.account.provider) == MapProvider(w.account.provider) == Some(p)
    ensures
      var s := ReconcileAll(INITIAL, [v, w], now).state;
      && !ReconcileAll(INITIAL, [v, w], now).raised
      && s.reg.byId == map[DaemonId(v.account.key, p) := DaemonFor(v.account, p), DaemonId(w.account.key, p) := DaemonFor(w.account, p)]
      && s.nextRetry == map[]
      && s.hashes == map[v.account.key := Fingerprint(v.account), w.account.key := Fingerprint(w.account)]
  {
    assert [v, w][1..] == [w] && [w][1..] == [];
    var s1 := Reconcile(INITIAL, v, now).state;
    ByIdAfter(INITIAL.reg, v);
    assert Decide(INITIAL, v, now) == Spawned;
    assert s1.reg.byId == map[DaemonId(v.account.key, p) := DaemonFor(v.account, p)];
    ByIdAfter(s1.reg, w);
    assert Decide(s1, w, now) == Spawned;
    var s2 := Reconcile(s1, w, now).state;
    assert ReconcileAll(s1, [w], now) == ReconcileAll(s2, [], now);
  }

  lemma ActiveTwo(v: Visit, w: Visit)
    requires v.account.active && w.account.active
    ensures ActiveVisits([v, w]) == [v, w] && Keys([v, w]) == {v.account.key, w.account.key}
  {
    assert [v, w][1..] == [w] && [w][1..] == [];
    assert ActiveVisits([w]) == [w] + ActiveVisits([]);
    assert v in [v, w] && w in [v, w];
  }

  /** From the start on: two accounts come up, then the first takes over the address of the
      second, which moves away in the same sweep. */
  lemma {:induction false} HandoverFromStart(v0: Visit, w0: Visit, v: Visit, w: Visit, p: Provider, t: real, u: real)
    requires v0.account.key == v.account.key != w.account.key == w0.account.key
    requires v0.account.active && w0.account.active && v.account.active && w.account.active
    requires v0.outcome == w0.outcome == v.outcome == w.outcome == Outcome(true, true, true)
    requires MapProvider(v0.account.provider) == MapProvider(w0.account.provider) == Some(p)
    requires MapProvider(v.account.provider) == MapProvider(w.account.provider) == Some(p)
    requires Fingerprint(v.account) != Fingerprint(v0.account) && Fingerprint(w.account) != Fingerprint(w0.account)
    requires Lower(v.account.email) == Lower(w0.account.email) != Lower(w.account.email)
    ensures
      var r := Run(INITIAL, [SweepInput([v0, w0], t), SweepInput([v, w], u)]).reg;
      var d := DaemonFor(v.account, p);
      Lookup(r.byId, d.Id()) == Some(d) && d.Box() !in r.byMailbox
  {
    var first, second := SweepInput([v0, w0], t), SweepInput([v, w], u);
    var s := Sweep(INITIAL, first).state;
    RunOfTwo(first, second);
    SweepOfTwo(INITIAL, v0, w0, t);
    SpawnTwo(v0, w0, p, t);
    SweepOfTwo(s, v, w, u);
    HandoverLosesRoute(s, v, w, p, u);
  }

  lemma RunOfTwo(first: SweepInput, second: SweepInput)
    ensures Run(INITIAL, [first, second]) == Sweep(Sweep(INITIAL, first).state, second).state
  {
    var s := Sweep(INITIAL, first).state;
    assert [first, second][1..] == [second] && [second][1..] == [];
    assert Run(INITIAL, [first, second]) == Run(s, [second]) == Run(Sweep(s, second).state, []);
  }

  lemma SweepOfTwo(s: State, v: Visit, w: Visit, now: real)
    requires v.account.active && w.account.active
    requires forall id :: id in s.reg.byId ==> id.key == v.account.key || id.key == w.account.key
    ensures
      var s', t := Sweep(s, SweepInput([v, w], now)).state, ReconcileAll(s, [v, w], now).state;
      s'.reg == t.reg && s'.nextRetry == t.nextRetry && s'.hashes == t.hashes
  {
    ActiveTwo(v, w);
    assert Orphans(s, Keys([v, w])) == {};
    TerminateNone(s);
  }
}
