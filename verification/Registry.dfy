/** The daemon registry of the ingestion gateway: one index by (tenant, account,
    provider) and one by (provider, lower-cased address), updated together. */
module Registry {
  import opened Common

  datatype Provider = MsGraph | Gmail | Imap

  datatype AccountKey = AccountKey(tenant: Uuid, account: Uuid)

  datatype DaemonId = DaemonId(key: AccountKey, provider: Provider)

  datatype Mailbox = Mailbox(provider: Provider, address: string)

  /** `config` is a history field: the fingerprint of the account record the
      daemon was created from. No operation of the registry reads it. */
  datatype Daemon = Daemon(key: AccountKey, provider: Provider, address: string, config: string) {
    function Id(): DaemonId {
      DaemonId(key, provider)
    }

    function Box(): Mailbox {
      Mailbox(provider, Lower(address))
    }
  }

  datatype Index = Index(byId: map<DaemonId, Daemon>, byMailbox: map<Mailbox, Daemon>)

  const EMPTY := Index(map[], map[])

  function Registered(r: Index, d: Daemon): Index {
    Index(r.byId[d.Id() := d], r.byMailbox[d.Box() := d])
  }

  function Unregistered(r: Index, id: DaemonId): Index {
    if id in r.byId then
      Index(r.byId - {id}, r.byMailbox - {Mailbox(id.provider, Lower(r.byId[id].address))})
    else
      r
  }

  ghost predicate IdsMatch(r: Index) {
    forall id :: id in r.byId ==> r.byId[id].Id() == id
  }

  /** The two indexes are inverse to each other: every registered daemon is found
      under its address, and the address index holds nothing else. */
  ghost predicate Exact(r: Index) {
    && IdsMatch(r)
    && (forall id :: id in r.byId ==>
          r.byId[id].Box() in r.byMailbox && r.byMailbox[r.byId[id].Box()] == r.byId[id])
    && (forall m :: m in r.byMailbox ==>
          var d := r.byMailbox[m]; d.Box() == m && d.Id() in r.byId && r.byId[d.Id()] == d)
  }

  /** What a caller can check before registering: an id in use keeps its address,
      and the address is free or already held under this id. */
  predicate Fits(r: Index, d: Daemon) {
    && (d.Id() in r.byId ==> r.byId[d.Id()].Box() == d.Box())
    && (d.Box() in r.byMailbox ==> r.byMailbox[d.Box()].Id() == d.Id())
  }

  lemma {:induction false} RegisterExact(r: Index, d: Daemon)
    requires Exact(r)
    ensures Exact(Registered(r, d)) <==> Fits(r, d)
  {
    var r' := Registered(r, d);
    if Fits(r, d) {
      forall id | id in r'.byId
        ensures r'.byId[id].Box() in r'.byMailbox && r'.byMailbox[r'.byId[id].Box()] == r'.byId[id]
      {
        assert id != d.Id() ==> r.byMailbox[r.byId[id].Box()] == r.byId[id];
      }
      assert Exact(r');
    } else if d.Id() in r.byId && r.byId[d.Id()].Box() != d.Box() {
      // The old address keeps pointing at a daemon that is no longer registered.
      var m := r.byId[d.Id()].Box();
      assert m in r'.byMailbox && r'.byMailbox[m] == r.byId[d.Id()] != r'.byId[d.Id()];
    } else {
      // The former holder of the address is registered but cannot be found by it.
      var other := r.byMailbox[d.Box()];
      assert other.Id() in r'.byId && r'.byId[other.Id()] == other;
    }
  }

  lemma {:induction false} UnregisterExact(r: Index, id: DaemonId)
    requires Exact(r)
    ensures Exact(Unregistered(r, id))
  {
    if id in r.byId {
      var r' := Unregistered(r, id);
      var m := r.byId[id].Box();
      assert r'.byMailbox == r.byMailbox - {m};
      forall j | j in r'.byId
        ensures r'.byId[j].Box() in r'.byMailbox
      {
        assert r.byId[j].Id() == j && r.byMailbox[r.byId[j].Box()] == r.byId[j];
      }
    }
  }

  datatype RegistryOp = Register(daemon: Daemon) | Unregister(id: DaemonId) | Clear

  function Apply(r: Index, op: RegistryOp): Index {
    match op
    case Register(d) => Registered(r, d)
    case Unregister(id) => Unregistered(r, id)
    case Clear => EMPTY
  }

  function ApplyAll(r: Index, ops: seq<RegistryOp>): Index
    decreases |ops|
  {
    if ops == [] then r else ApplyAll(Apply(r, ops[0]), ops[1..])
  }

  lemma IdsAlwaysMatch(r: Index, op: RegistryOp)
    requires IdsMatch(r)
    ensures IdsMatch(Apply(r, op))
  {
  }

  /** A registry filled through its own operations files every daemon under its own id. */
  lemma {:induction false} ReachableIdsMatch(r: Index, ops: seq<RegistryOp>)
    requires IdsMatch(r)
    ensures IdsMatch(ApplyAll(r, ops))
    decreases |ops|
  {
    if ops != [] {
      IdsAlwaysMatch(r, ops[0]);
      ReachableIdsMatch(Apply(r, ops[0]), ops[1..]);
    }
  }

  ghost predicate EveryRegisterFits(r: Index, ops: seq<RegistryOp>)
    decreases |ops|
  {
    ops != [] ==>
      && (ops[0].Register? ==> Fits(r, ops[0].daemon))
      && EveryRegisterFits(Apply(r, ops[0]), ops[1..])
  }

  ghost predicate ExactThroughout(r: Index, ops: seq<RegistryOp>)
    decreases |ops|
  {
    Exact(r) && (ops != [] ==> ExactThroughout(Apply(r, ops[0]), ops[1..]))
  }

  /** Over every sequence of calls, the indexes stay inverse at every point exactly
      when every registration fits. */
  lemma {:induction false} IndexesStayInverse(r: Index, ops: seq<RegistryOp>)
    requires Exact(r)
    ensures ExactThroughout(r, ops) <==> EveryRegisterFits(r, ops)
    decreases |ops|
  {
    if ops != [] {
      var r' := Apply(r, ops[0]);
      match ops[0] {
        case Register(d) => RegisterExact(r, d);
        case Unregister(id) => UnregisterExact(r, id);
        case Clear =>
      }
      if Exact(r') {
        IndexesStayInverse(r', ops[1..]);
      }
    }
  }

  /** Two daemons on one address: dropping either one leaves the other registered
      but unreachable by address. */
  lemma SharedAddressLosesRoute(d: Daemon, e: Daemon)
    requires d.Id() != e.Id() && d.Box() == e.Box()
    ensures
      var r := Unregistered(Registered(Registered(EMPTY, d), e), d.Id());
      e.Id() in r.byId && e.Box() !in r.byMailbox
  {
  }

  predicate Listed(d: Daemon, tenant: Option<Uuid>) {
    tenant.Some? ==> d.key.tenant == tenant.value
  }

  class MailboxDaemonRegistry {
    var byId: map<DaemonId, Daemon>
    var byMailbox: map<Mailbox, Daemon>

    ghost function Contents(): Index
      reads this
    {
      Index(byId, byMailbox)
    }

    constructor ()
      ensures Contents() == EMPTY
    {
      byId, byMailbox := map[], map[];
    }

    method Register(d: Daemon)
      modifies this
      ensures Contents() == Registered(old(Contents()), d)
    {
      byId := byId[d.Id() := d];
      byMailbox := byMailbox[d.Box() := d];
    }

    method Unregister(id: DaemonId) returns (found: bool)
      modifies this
      ensures found == (id in old(byId))
      ensures Contents() == Unregistered(old(Contents()), id)
    {
      found := id in byId;
      if found {
        var d := byId[id];
        byId := byId - {id};
        byMailbox := byMailbox - {Mailbox(id.provider, Lower(d.address))};
      }
    }

    method GetDaemon(id: DaemonId) returns (d: Option<Daemon>)
      ensures d.Some? <==> id in byId
      ensures d.Some? ==> d.value == byId[id]
    {
      d := if id in byId then Some(byId[id]) else None;
    }

    /** While the indexes are inverse, the answer is the one registered daemon of
        that provider whose address matches up to case. */
    method FindByMailbox(provider: Provider, address: string) returns (d: Option<Daemon>)
      ensures Exact(Contents()) && d.Some? ==>
                d.value.Id() in byId && byId[d.value.Id()] == d.value && d.value.Box() == Mailbox(provider, Lower(address))
      ensures Exact(Contents()) && d.None? ==>
                forall id :: id in byId ==> byId[id].Box() != Mailbox(provider, Lower(address))
    {
      var m := Mailbox(provider, Lower(address));
      d := if m in byMailbox then Some(byMailbox[m]) else None;
    }

    /** Each registered daemon, of one tenant if one is given, exactly once. */
    method ListDaemons(tenant: Option<Uuid>) returns (ds: seq<Daemon>)
      requires IdsMatch(Contents())
      ensures forall i :: 0 <= i < |ds| ==> ds[i].Id() in byId && byId[ds[i].Id()] == ds[i] && Listed(ds[i], tenant)
      ensures forall i, j :: 0 <= i < j < |ds| ==> ds[i].Id() != ds[j].Id()
      ensures forall id :: id in byId && Listed(byId[id], tenant) ==> byId[id] in ds
      ensures tenant.None? ==> |ds| == |byId|
      ensures forall d: Daemon :: d in ds && tenant.Some? ==> d.key.tenant == tenant.value
      ensures forall id :: id in byId && (tenant.None? || id.key.tenant == tenant.value) ==> byId[id] in ds
    {
      ds := [];
      var todo := byId.Keys;
      while todo != {}
        invariant todo <= byId.Keys
        invariant forall i :: 0 <= i < |ds| ==>
                    ds[i].Id() in byId && byId[ds[i].Id()] == ds[i] && Listed(ds[i], tenant) && ds[i].Id() !in todo
        invariant forall i, j :: 0 <= i < j < |ds| ==> ds[i].Id() != ds[j].Id()
        invariant forall id :: id in byId && id !in todo && Listed(byId[id], tenant) ==> byId[id] in ds
        invariant tenant.None? ==> |ds| + |todo| == |byId|
      {
        var id :| id in todo;
        todo := todo - {id};
        if tenant.None? || byId[id].key.tenant == tenant.value {
          ds := ds + [byId[id]];
        }
      }
    }

    method Clear()
      modifies this
      ensures Contents() == EMPTY == Apply(old(Contents()), RegistryOp.Clear)
    {
      byId, byMailbox := map[], map[];
    }
  }
}
