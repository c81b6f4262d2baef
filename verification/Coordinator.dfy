/** Account/daemon reconciliation. One sweep drops the daemons of accounts that are
    no longer active, then visits every active account and spawns, restarts or keeps
    its daemon; a failing visit puts the account into exponential backoff.

    `Sweep` is the specification on values, `AccountSyncCoordinator.ReconcileOnce` the
    implementation. The clock and the outcome of each stop/create/start call are inputs. */
module Coordinator {
  import opened Common
  import opened Registry

  /** Token fields hold the text that the fingerprint is formatted from. */
  datatype Account = Account(key: AccountKey, provider: string, email: string,
                             accessToken: string, refreshToken: string, active: bool)

  /** What the daemon calls of one visit would do: raise or not. */
  datatype Outcome = Outcome(stopOk: bool, createOk: bool, startOk: bool)

  datatype Visit = Visit(account: Account, outcome: Outcome)

  datatype SweepInput = SweepInput(visits: seq<Visit>, now: real)

  /** SHA-256 is taken to be injective, so the digest is represented by its preimage. */
  function Fingerprint(a: Account): string {
    a.provider + ":" + (a.email + ":" + (a.accessToken + ":" + a.refreshToken))
  }

  function MapProvider(text: string): Option<Provider> {
    var u := Upper(text);
    if Contains(u, "GRAPH") || Contains(u, "MICROSOFT") || Contains(u, "OFFICE") then Some(MsGraph)
    else if Contains(u, "GMAIL") || Contains(u, "GOOGLE") then Some(Gmail)
    else if Contains(u, "IMAP") then Some(Imap)
    else None
  }

  /** Largest exponent for which 2.0 ** e is a finite double. */
  const MAX_EXPONENT: nat := 1023

  /** The delay the design promises: 10s doubling up to 300s. */
  function Delay(failures: nat): real {
    if failures == 0 then 0.0 else Min(10.0 * Pow2(failures - 1) as real, 300.0)
  }

  /** The delay the code computes; None is the OverflowError of the power. */
  function Backoff(failures: nat): Option<real> {
    if failures > MAX_EXPONENT + 1 then None else Some(Delay(failures))
  }

  datatype State = State(reg: Index,
                         failures: map<AccountKey, nat>,
                         nextRetry: map<AccountKey, real>,
                         hashes: map<AccountKey, string>,
                         spawned: nat,
                         terminated: nat,
                         cycles: nat)

  const INITIAL := State(EMPTY, map[], map[], map[], 0, 0, 0)

  datatype Step = Step(state: State, raised: bool)

  datatype Verdict = InBackoff | Kept | Spawned | Restarted | Failed(lostDaemon: bool)

  function DaemonFor(a: Account, p: Provider): Daemon {
    Daemon(a.key, p, a.email, Fingerprint(a))
  }

  function Decide(s: State, v: Visit, now: real): Verdict {
    var a, o := v.account, v.outcome;
    if a.key in s.nextRetry && now < s.nextRetry[a.key] then InBackoff
    else match MapProvider(a.provider)
      case None => Failed(false)
      case Some(p) =>
        if DaemonId(a.key, p) !in s.reg.byId then
          if LaunchOk(false, o) then Spawned else Failed(false)
        else if a.key in s.hashes && s.hashes[a.key] != Fingerprint(a) then
          if LaunchOk(true, o) then Restarted else Failed(true)
        else Kept
  }

  predicate LaunchOk(restart: bool, o: Outcome) {
    (restart ==> o.stopOk) && o.createOk && o.startOk
  }

  /** Registry when the daemon calls of a spawn or restart are over. */
  function Launched(r: Index, d: Daemon, o: Outcome): Index {
    if d.Id() in r.byId && !o.stopOk then r
    else
      var r' := Unregistered(r, d.Id());
      if o.createOk then Registered(r', d) else r'
  }

  /** The same after the exception handler, which unregisters what a failed launch left. */
  function LaunchedOrCleaned(r: Index, d: Daemon, o: Outcome): Index {
    if LaunchOk(d.Id() in r.byId, o) then Launched(r, d, o) else Unregistered(Launched(r, d, o), d.Id())
  }

  function RegistryAfter(r: Index, v: Visit): Index {
    match MapProvider(v.account.provider)
    case None => r
    case Some(p) => LaunchedOrCleaned(r, DaemonFor(v.account, p), v.outcome)
  }

  function FailureRecorded(s: State, k: AccountKey, now: real): Step {
    var n := (if k in s.failures then s.failures[k] else 0) + 1;
    var s' := s.(failures := s.failures[k := n]);
    match Backoff(n)
    case Some(delay) => Step(s'.(nextRetry := s.nextRetry[k := now + delay]), false)
    case None => Step(s', true)
  }

  function SuccessRecorded(s: State, a: Account, isNew: bool): State {
    s.(hashes := s.hashes[a.key := Fingerprint(a)],
       failures := s.failures - {a.key},
       nextRetry := s.nextRetry - {a.key},
       spawned := s.spawned + if isNew then 1 else 0)
  }

  function Reconcile(s: State, v: Visit, now: real): Step {
    var s' := s.(reg := RegistryAfter(s.reg, v));
    match Decide(s, v, now)
    case InBackoff => Step(s, false)
    case Kept => Step(s, false)
    case Failed(_) => FailureRecorded(s', v.account.key, now)
    case Spawned => Step(SuccessRecorded(s', v.account, true), false)
    case Restarted => Step(SuccessRecorded(s', v.account, false), false)
  }

  /** An exception out of one visit ends the sweep. */
  function ReconcileAll(s: State, visits: seq<Visit>, now: real): Step
    decreases |visits|
  {
    if visits == [] then Step(s, false)
    else
      var step := Reconcile(s, visits[0], now);
      if step.raised then step else ReconcileAll(step.state, visits[1..], now)
  }

  function ActiveVisits(visits: seq<Visit>): seq<Visit> {
    if visits == [] then []
    else (if visits[0].account.active then [visits[0]] else []) + ActiveVisits(visits[1..])
  }

  function Keys(visits: seq<Visit>): set<AccountKey> {
    set v | v in visits :: v.account.key
  }

  function KeysOf(ids: set<DaemonId>): set<AccountKey> {
    set id | id in ids :: id.key
  }

  function BoxesOf(r: Index, ids: set<DaemonId>): set<Mailbox>
    requires ids <= r.byId.Keys
  {
    set id | id in ids :: Mailbox(id.provider, Lower(r.byId[id].address))
  }

  function Terminate(s: State, drop: set<DaemonId>): State
    requires drop <= s.reg.byId.Keys
  {
    s.(reg := Index(s.reg.byId - drop, s.reg.byMailbox - BoxesOf(s.reg, drop)),
       failures := s.failures - KeysOf(drop),
       nextRetry := s.nextRetry - KeysOf(drop),
       hashes := s.hashes - KeysOf(drop),
       terminated := s.terminated + |drop|)
  }

  function Orphans(s: State, active: set<AccountKey>): set<DaemonId> {
    set id | id in s.reg.byId && id.key !in active
  }

  function Swept(s: State, visits: seq<Visit>): State {
    Terminate(s, Orphans(s, Keys(visits)))
  }

  function Sweep(s: State, input: SweepInput): Step {
    var active := ActiveVisits(input.visits);
    var step := ReconcileAll(Swept(s, active), active, input.now);
    if step.raised then step else Step(step.state.(cycles := step.state.cycles + 1), false)
  }

  /** The background loop survives a raising sweep and goes on with the next one. */
  function Run(s: State, sweeps: seq<SweepInput>): State
    decreases |sweeps|
  {
    if sweeps == [] then s else Run(Sweep(s, sweeps[0]).state, sweeps[1..])
  }

  ghost predicate ClockedFrom(t: real, sweeps: seq<SweepInput>) {
    && (forall i :: 0 <= i < |sweeps| ==> t <= sweeps[i].now)
    && (forall i, j :: 0 <= i < j < |sweeps| ==> sweeps[i].now <= sweeps[j].now)
  }

  /** One round of the termination loop. */
  function Dropped(s: State, id: DaemonId): State {
    s.(reg := Unregistered(s.reg, id), failures := s.failures - {id.key},
       nextRetry := s.nextRetry - {id.key}, hashes := s.hashes - {id.key}, terminated := s.terminated + 1)
  }

  lemma TerminateNone(s: State)
    ensures Terminate(s, {}) == s
  {
    var t := Terminate(s, {});
    assert t.reg.byId == s.reg.byId && t.reg.byMailbox == s.reg.byMailbox;
    assert t.failures == s.failures && t.nextRetry == s.nextRetry && t.hashes == s.hashes;
  }

  /** The termination loop over a list of daemons. */
  function DroppedAll(s: State, daemons: seq<Daemon>, active: set<AccountKey>): State
    decreases |daemons|
  {
    if daemons == [] then s
    else DroppedAll(if daemons[0].key in active then s else Dropped(s, daemons[0].Id()), daemons[1..], active)
  }

  lemma RemovedInTwo<K, V>(m: map<K, V>, x: K, all: set<K>, rest: set<K>)
    requires all == {x} + rest
    ensures m - all == m - {x} - rest
  {
  }

  lemma KeysSplit(drop: set<DaemonId>, id: DaemonId)
    requires id in drop
    ensures KeysOf(drop) == {id.key} + KeysOf(drop - {id})
  {
  }

  lemma BoxesSplit(r: Index, drop: set<DaemonId>, id: DaemonId)
    requires drop <= r.byId.Keys && id in drop
    ensures drop - {id} <= Unregistered(r, id).byId.Keys
    ensures BoxesOf(r, drop) ==
            {Mailbox(id.provider, Lower(r.byId[id].address))} + BoxesOf(Unregistered(r, id), drop - {id})
  {
  }

  lemma TerminateFirst(s: State, drop: set<DaemonId>, id: DaemonId)
    requires drop <= s.reg.byId.Keys && id in drop
    ensures drop - {id} <= Dropped(s, id).reg.byId.Keys
    ensures Terminate(s, drop) == Terminate(Dropped(s, id), drop - {id})
  {
    var s', rest := Dropped(s, id), drop - {id};
    BoxesSplit(s.reg, drop, id);
    KeysSplit(drop, id);
    RemovedInTwo(s.reg.byMailbox, Mailbox(id.provider, Lower(s.reg.byId[id].address)), BoxesOf(s.reg, drop), BoxesOf(s'.reg, rest));
    RemovedInTwo(s.reg.byId, id, drop, rest);
    RemovedInTwo(s.failures, id.key, KeysOf(drop), KeysOf(rest));
    RemovedInTwo(s.nextRetry, id.key, KeysOf(drop), KeysOf(rest));
    RemovedInTwo(s.hashes, id.key, KeysOf(drop), KeysOf(rest));
  }

  /** The order in which the daemons are listed does not matter. */
  lemma {:induction false} DroppedAllIsTerminate(s: State, daemons: seq<Daemon>, active: set<AccountKey>)
    requires forall i, j :: 0 <= i < j < |daemons| ==> daemons[i].Id() != daemons[j].Id()
    requires forall i :: 0 <= i < |daemons| ==> daemons[i].Id() in s.reg.byId
    requires forall id :: id in Orphans(s, active) ==> exists i :: 0 <= i < |daemons| && daemons[i].Id() == id
    ensures DroppedAll(s, daemons, active) == Terminate(s, Orphans(s, active))
    decreases |daemons|
  {
    var drop := Orphans(s, active);
    if daemons == [] {
      assert drop == {};
      TerminateNone(s);
    } else {
      var id, rest := daemons[0].Id(), daemons[1..];
      var s' := if id.key in active then s else Dropped(s, id);
      if id.key !in active {
        TerminateFirst(s, drop, id);
        assert Orphans(s', active) == drop - {id};
      }
      forall j | j in Orphans(s', active)
        ensures exists i :: 0 <= i < |rest| && rest[i].Id() == j
      {
        var i :| 0 <= i < |daemons| && daemons[i].Id() == j;
        assert rest[i - 1].Id() == j;
      }
      DroppedAllIsTerminate(s', rest, active);
    }
  }

  class AccountSyncCoordinator {
    const registry: MailboxDaemonRegistry
    var failures: map<AccountKey, nat>
    var nextRetry: map<AccountKey, real>
    var hashes: map<AccountKey, string>
    var spawned: nat
    var terminated: nat
    var cycles: nat

    ghost function View(): State
      reads this, registry
    {
      State(registry.Contents(), failures, nextRetry, hashes, spawned, terminated, cycles)
    }

    constructor (registry: MailboxDaemonRegistry)
      ensures this.registry == registry
      ensures View() == INITIAL.(reg := registry.Contents())
    {
      this.registry := registry;
      failures, nextRetry, hashes := map[], map[], map[];
      spawned, terminated, cycles := 0, 0, 0;
    }

    method TerminateDaemon(d: Daemon)
      modifies this, registry
      ensures View() == Dropped(old(View()), d.Id())
    {
      var _ := registry.Unregister(d.Id());
      failures := failures - {d.key};
      nextRetry := nextRetry - {d.key};
      hashes := hashes - {d.key};
      terminated := terminated + 1;
    }

    method TerminateOrphans(active: set<AccountKey>)
      requires IdsMatch(registry.Contents())
      modifies this, registry
      ensures View() == Terminate(old(View()), Orphans(old(View()), active))
    {
      ghost var s := View();
      var daemons := registry.ListDaemons(None);
      for i := 0 to |daemons|
        invariant DroppedAll(s, daemons, active) == DroppedAll(View(), daemons[i..], active)
      {
        if daemons[i].key !in active {
          TerminateDaemon(daemons[i]);
        }
      }
      DroppedAllIsTerminate(s, daemons, active);
    }

    /** Create and start a daemon, stopping and unregistering its predecessor first. */
    method Launch(d: Daemon, o: Outcome, restart: bool) returns (ok: bool)
      requires restart <==> d.Id() in registry.byId
      modifies registry
      ensures ok == LaunchOk(restart, o)
      ensures registry.Contents() == Launched(old(registry.Contents()), d, o)
    {
      ok := false;
      if restart {
        if !o.stopOk {
          return;
        }
        var _ := registry.Unregister(d.Id());
      }
      if o.createOk {
        registry.Register(d);
        ok := o.startOk;
      }
    }

    method RecordFailure(k: AccountKey, now: real) returns (raised: bool)
      modifies this
      ensures Step(View(), raised) == FailureRecorded(old(View()), k, now)
    {
      var n := (if k in failures then failures[k] else 0) + 1;
      failures := failures[k := n];
      var delay := Backoff(n);
      raised := delay.None?;
      if !raised {
        nextRetry := nextRetry[k := now + delay.value];
      }
    }

    method RecordSuccess(a: Account, isNew: bool)
      modifies this
      ensures View() == SuccessRecorded(old(View()), a, isNew)
    {
      hashes := hashes[a.key := Fingerprint(a)];
      failures := failures - {a.key};
      nextRetry := nextRetry - {a.key};
      if isNew {
        spawned := spawned + 1;
      }
    }

    /** A failed launch leaves nothing registered under its id. */
    method LaunchOrCleanUp(d: Daemon, o: Outcome, restart: bool) returns (ok: bool)
      requires restart <==> d.Id() in registry.byId
      modifies registry
      ensures ok == LaunchOk(restart, o)
      ensures registry.Contents() == LaunchedOrCleaned(old(registry.Contents()), d, o)
    {
      ok := Launch(d, o, restart);
      if !ok {
        var _ := registry.Unregister(d.Id());
      }
    }

    method LaunchAndRecord(a: Account, p: Provider, o: Outcome, restart: bool, now: real) returns (raised: bool)
      requires restart <==> DaemonId(a.key, p) in registry.byId
      modifies this, registry
      ensures
        var s := old(View()).(reg := LaunchedOrCleaned(old(registry.Contents()), DaemonFor(a, p), o));
        Step(View(), raised) ==
        if LaunchOk(restart, o) then Step(SuccessRecorded(s, a, !restart), false) else FailureRecorded(s, a.key, now)
    {
      var ok := LaunchOrCleanUp(DaemonFor(a, p), o, restart);
      if ok {
        RecordSuccess(a, !restart);
        raised := false;
      } else {
        raised := RecordFailure(a.key, now);
      }
    }

    method ReconcileAccount(v: Visit, now: real) returns (raised: bool)
      modifies this, registry
      ensures Step(View(), raised) == Reconcile(old(View()), v, now)
    {
      var a := v.account;
      raised := false;
      if a.key in nextRetry && now < nextRetry[a.key] {
        return;
      }
      var provider := MapProvider(a.provider);
      if provider.None? {
        raised := RecordFailure(a.key, now);
        return;
      }
      var existing := registry.GetDaemon(DaemonId(a.key, provider.value));
      if existing.None? || (a.key in hashes && hashes[a.key] != Fingerprint(a)) {
        raised := LaunchAndRecord(a, provider.value, v.outcome, existing.Some?, now);
      }
    }

    method ReconcileOnce(input: SweepInput) returns (raised: bool)
      requires IdsMatch(registry.Contents())
      modifies this, registry
      ensures Step(View(), raised) == Sweep(old(View()), input)
    {
      var active := ActiveVisits(input.visits);
      TerminateOrphans(Keys(active));
      ghost var s := View();
      for i := 0 to |active|
        invariant ReconcileAll(s, active, input.now) == ReconcileAll(View(), active[i..], input.now)
      {
        assert active[i..][0] == active[i] && active[i..][1..] == active[i + 1..];
        raised := ReconcileAccount(active[i], input.now);
        if raised {
          return;
        }
      }
      cycles := cycles + 1;
      raised := false;
    }
  }
}
