/** Tenant trust memory: bounded updates from analyst feedback, each applied at most once,
    with an audit trail and administrative rollback. Scores are reals. */
module Convergence {
  import opened Common
  import opened Feedback

  datatype TrustLevel = JuniorAnalyst | SeniorAnalyst | LeadSocAdmin | OtherLevel(text: string)

  const MAX_DELTA := 0.20
  const LEARNING_RATE := 0.20
  const START := 0.50

  function Weight(l: TrustLevel): real {
    match l
    case JuniorAnalyst => 0.50
    case SeniorAnalyst => 0.85
    case LeadSocAdmin => 1.00
    case OtherLevel(_) => 0.50
  }

  function Signal(c: Correction): real {
    match c
    case FalsePositive => 1.0
    case ConfirmedClean => 0.80
    case BenignAnomaly => 0.40
    case NeedsEscalation => 0.0
    case ConfirmedSuspicious => -0.50
    case FalseNegative => -1.0
    case ConfirmedMalicious => -1.0
    case OtherText(_) => 0.0
  }

  function Clamp(lo: real, hi: real, x: real): real {
    Max(lo, Min(hi, x))
  }

  function Unit(x: real): real {
    Clamp(0.0, 1.0, x)
  }

  /** `x` times the weight of the level, case by case. */
  function Weighted(l: TrustLevel, x: real): real {
    match l
    case JuniorAnalyst => 0.50 * x
    case SeniorAnalyst => 0.85 * x
    case LeadSocAdmin => 1.00 * x
    case OtherLevel(_) => 0.50 * x
  }

  function Delta(c: Correction, l: TrustLevel): real {
    Clamp(-MAX_DELTA, MAX_DELTA, Weighted(l, LEARNING_RATE * Signal(c)))
  }

  /** The delta is rate * weight * signal: the bound on a single update is met by every verdict and level without clamping. */
  lemma {:induction false} DeltaIsNeverClamped(c: Correction, l: TrustLevel)
    ensures Delta(c, l) == LEARNING_RATE * Weight(l) * Signal(c)
    ensures -MAX_DELTA <= Delta(c, l) <= MAX_DELTA
  {
    match l {
      case JuniorAnalyst =>
      case SeniorAnalyst =>
      case LeadSocAdmin =>
      case OtherLevel(_) =>
    }
  }

  /** One verdict moves a score from `x` to `y`: by the first amount if a lead gave it, by the
      second for a senior, by the third for a junior or an unknown level, up to the ends of [0, 1]. */
  predicate Moves(x: real, y: real, l: TrustLevel, lead: real, senior: real, junior: real) {
    var amount := if l == LeadSocAdmin then lead else if l == SeniorAnalyst then senior else junior;
    y == if x + amount < 0.0 then 0.0 else if x + amount > 1.0 then 1.0 else x + amount
  }

  /** What the feedback table says of each verdict and level, in figures. */
  predicate MovesAsRated(x: real, y: real, c: Correction, l: TrustLevel) {
    && (c == FalsePositive ==> Moves(x, y, l, 0.20, 0.17, 0.10))
    && (c == ConfirmedClean ==> Moves(x, y, l, 0.16, 0.136, 0.08))
    && (c == BenignAnomaly ==> Moves(x, y, l, 0.08, 0.068, 0.04))
    && (c == NeedsEscalation || c.OtherText? ==> Moves(x, y, l, 0.0, 0.0, 0.0))
    && (c == ConfirmedSuspicious ==> Moves(x, y, l, -0.10, -0.085, -0.05))
    && (c == FalseNegative || c == ConfirmedMalicious ==> Moves(x, y, l, -0.20, -0.17, -0.10))
  }

  lemma {:induction false} UpdateMovesAsRated(x: real, c: Correction, l: TrustLevel)
    ensures MovesAsRated(x, Unit(x + Delta(c, l)), c, l)
    ensures x + Delta(c, l) >= 0.0 && x + Delta(c, l) <= 1.0 ==> Unit(x + Delta(c, l)) == x + Delta(c, l)
  {
    match l {
      case JuniorAnalyst =>
      case SeniorAnalyst =>
      case LeadSocAdmin =>
      case OtherLevel(_) =>
    }
  }

  datatype TrustRecord = TrustRecord(trust: real, confidence: real, incidents: nat,
                                     falsePositives: nat, falseNegatives: nat, lastVerdict: Option<Correction>)

  const FRESH := TrustRecord(START, 0.50, 0, 0, 0, None)

  datatype Audit = Audit(eventId: Uuid, feedbackId: Uuid, entity: string, prior: real, posterior: real,
                         delta: real, rolledBackBy: Option<string>)

  datatype Tenant = Tenant(entities: map<string, TrustRecord>, audits: seq<Audit>, processed: set<Uuid>)

  const EMPTY := Tenant(map[], [], {})

  datatype Submission = Submission(eventId: Uuid, feedbackId: Uuid, verdict: Correction, level: TrustLevel, entity: string)

  function RecordOf(t: Tenant, entity: string): TrustRecord {
    if entity in t.entities then t.entities[entity] else FRESH
  }

  function Trust(t: Tenant, entity: string): real {
    RecordOf(t, entity).trust
  }

  predicate IsKnown(t: Tenant, s: Submission) {
    s.eventId in t.processed || s.feedbackId in t.processed
  }

  function Updated(r: TrustRecord, s: Submission): TrustRecord {
    TrustRecord(Unit(r.trust + Delta(s.verdict, s.level)),
                Unit(r.confidence + 0.05 * Weight(s.level)),
                r.incidents + 1,
                r.falsePositives + (if s.verdict.FalsePositive? then 1 else 0),
                r.falseNegatives + (if s.verdict.FalseNegative? || s.verdict.ConfirmedMalicious? then 1 else 0),
                Some(s.verdict))
  }

  function Applied(t: Tenant, s: Submission): Tenant {
    if IsKnown(t, s) then t
    else
      var r := RecordOf(t, s.entity);
      var r' := Updated(r, s);
      Tenant(t.entities[s.entity := r'],
             t.audits + [Audit(s.eventId, s.feedbackId, s.entity, r.trust, r'.trust, Delta(s.verdict, s.level), None)],
             t.processed + {s.eventId, s.feedbackId})
  }

  /** The search from the newest audit item backwards. */
  function FindNewest(audits: seq<Audit>, feedbackId: Uuid): Option<nat> {
    if audits == [] then None
    else if audits[|audits| - 1].feedbackId == feedbackId then Some(|audits| - 1)
    else FindNewest(audits[..|audits| - 1], feedbackId)
  }

  lemma {:induction false} FoundIsInRange(audits: seq<Audit>, f: Uuid)
    ensures FindNewest(audits, f).Some? ==>
              FindNewest(audits, f).value < |audits| && audits[FindNewest(audits, f).value].feedbackId == f
    ensures FindNewest(audits, f).None? ==> forall i :: 0 <= i < |audits| ==> audits[i].feedbackId != f
    decreases |audits|
  {
    if audits != [] {
      FoundIsInRange(audits[..|audits| - 1], f);
    }
  }

  datatype Rollback = RolledBack(restored: real) | NotFound | AlreadyRolledBack | Unauthorized

  datatype RollbackStep = RollbackStep(tenant: Tenant, outcome: Rollback)

  function Undo(t: Tenant, feedbackId: Uuid, who: string): RollbackStep {
    FoundIsInRange(t.audits, feedbackId);
    match FindNewest(t.audits, feedbackId)
    case None => RollbackStep(t, NotFound)
    case Some(i) =>
      var a := t.audits[i];
      if a.rolledBackBy.Some? then RollbackStep(t, AlreadyRolledBack)
      else
        RollbackStep(t.(entities := if a.entity in t.entities
                                    then t.entities[a.entity := t.entities[a.entity].(trust := a.prior)]
                                    else t.entities,
                        audits := t.audits[i := a.(rolledBackBy := Some(who))]),
                     RolledBack(a.prior))
  }

  datatype Op = Submit(submission: Submission) | Revert(feedbackId: Uuid, who: string)

  function Step(t: Tenant, op: Op): Tenant {
    match op
    case Submit(s) => Applied(t, s)
    case Revert(f, who) => Undo(t, f, who).tenant
  }

  function Run(t: Tenant, ops: seq<Op>): Tenant
    decreases |ops|
  {
    if ops == [] then t else Run(Step(t, ops[0]), ops[1..])
  }

  // ---------- Ids are used once ----------

  predicate Mentions(a: Audit, id: Uuid) {
    a.eventId == id || a.feedbackId == id
  }

  ghost predicate InUnit(x: real) {
    0.0 <= x <= 1.0
  }

  /** No two audit items share an id, and the processed set is exactly the ids of the trail. */
  ghost predicate IdsInv(t: Tenant) {
    && (forall i, j, id :: 0 <= i < j < |t.audits| && Mentions(t.audits[i], id) ==> !Mentions(t.audits[j], id))
    && (forall i, id :: 0 <= i < |t.audits| && Mentions(t.audits[i], id) ==> id in t.processed)
    && (forall id :: id in t.processed ==> exists i :: 0 <= i < |t.audits| && Mentions(t.audits[i], id))
  }

  function IncidentsOf(audits: seq<Audit>, entity: string): nat {
    if audits == [] then 0
    else IncidentsOf(audits[..|audits| - 1], entity) + if audits[|audits| - 1].entity == entity then 1 else 0
  }

  /** Scores stay in [0, 1], and an entity's incident count is its number of audit items. */
  ghost predicate ScoresInv(t: Tenant) {
    && (forall k :: k in t.entities ==>
          InUnit(t.entities[k].trust) && InUnit(t.entities[k].confidence) && t.entities[k].incidents == IncidentsOf(t.audits, k))
    && (forall i :: 0 <= i < |t.audits| ==> t.audits[i].entity in t.entities && InUnit(t.audits[i].prior))
    && (forall k :: k !in t.entities ==> IncidentsOf(t.audits, k) == 0)
  }

  lemma SubmitKeepsIds(t: Tenant, s: Submission)
    requires IdsInv(t)
    ensures IdsInv(Applied(t, s))
  {
    if !IsKnown(t, s) {
      var t', n := Applied(t, s), |t.audits|;
      assert t'.audits[n].eventId == s.eventId && t'.audits[n].feedbackId == s.feedbackId;
      forall id | id in t'.processed
        ensures exists i :: 0 <= i <= n && Mentions(t'.audits[i], id)
      {
        if id in t.processed {
          var i :| 0 <= i < n && Mentions(t.audits[i], id);
          assert t'.audits[i] == t.audits[i];
        } else {
          assert Mentions(t'.audits[n], id);
        }
      }
    }
  }

  lemma UndoKeepsIds(t: Tenant, f: Uuid, who: string)
    requires IdsInv(t)
    ensures IdsInv(Undo(t, f, who).tenant)
  {
    FoundIsInRange(t.audits, f);
    var t' := Undo(t, f, who).tenant;
    assert forall i, id :: 0 <= i < |t.audits| ==> (Mentions(t'.audits[i], id) <==> Mentions(t.audits[i], id));
    forall id | id in t'.processed
      ensures exists i :: 0 <= i < |t'.audits| && Mentions(t'.audits[i], id)
    {
      var i :| 0 <= i < |t.audits| && Mentions(t.audits[i], id);
      assert Mentions(t'.audits[i], id);
    }
  }

  lemma {:induction false} IncidentsAfterMark(audits: seq<Audit>, i: nat, a: Audit, entity: string)
    requires i < |audits| && a.entity == audits[i].entity
    ensures IncidentsOf(audits[i := a], entity) == IncidentsOf(audits, entity)
    decreases |audits|
  {
    var n := |audits| - 1;
    if i < n {
      assert audits[i := a][..n] == audits[..n][i := a];
      IncidentsAfterMark(audits[..n], i, a, entity);
    } else {
      assert audits[i := a][..n] == audits[..n];
    }
  }

  lemma SubmitKeepsScores(t: Tenant, s: Submission)
    requires ScoresInv(t)
    ensures ScoresInv(Applied(t, s))
  {
    if !IsKnown(t, s) {
      var t' := Applied(t, s);
      assert t'.audits[..|t.audits|] == t.audits;
    }
  }

  lemma UndoKeepsScores(t: Tenant, f: Uuid, who: string)
    requires ScoresInv(t)
    ensures ScoresInv(Undo(t, f, who).tenant)
  {
    FoundIsInRange(t.audits, f);
    if Undo(t, f, who).outcome.RolledBack? {
      var i := FindNewest(t.audits, f).value;
      forall k
        ensures IncidentsOf(Undo(t, f, who).tenant.audits, k) == IncidentsOf(t.audits, k)
      {
        IncidentsAfterMark(t.audits, i, t.audits[i].(rolledBackBy := Some(who)), k);
      }
    }
  }

  lemma {:induction false} RunKeepsInv(t: Tenant, ops: seq<Op>)
    requires IdsInv(t) && ScoresInv(t)
    ensures IdsInv(Run(t, ops)) && ScoresInv(Run(t, ops))
    decreases |ops|
  {
    if ops != [] {
      match ops[0] {
        case Submit(s) => SubmitKeepsIds(t, s); SubmitKeepsScores(t, s);
        case Revert(f, who) => UndoKeepsIds(t, f, who); UndoKeepsScores(t, f, who);
      }
      RunKeepsInv(Step(t, ops[0]), ops[1..]);
    }
  }

  /** The backward search finds the only audit item with that feedback id. */
  lemma {:induction false} RollbackTargetIsUnique(t: Tenant, i: nat)
    requires IdsInv(t) && i < |t.audits|
    ensures FindNewest(t.audits, t.audits[i].feedbackId) == Some(i)
  {
    var f := t.audits[i].feedbackId;
    FoundIsInRange(t.audits, f);
    var j := FindNewest(t.audits, f).value;
    assert Mentions(t.audits[i], f) && Mentions(t.audits[j], f);
  }

  /** Ids, targets and rollback marks of the trail never change; it only grows. */
  ghost predicate Extends(t: Tenant, t': Tenant) {
    && |t.audits| <= |t'.audits| && t.processed <= t'.processed
    && forall i :: 0 <= i < |t.audits| ==>
         && t'.audits[i] == t.audits[i].(rolledBackBy := t'.audits[i].rolledBackBy)
         && (t.audits[i].rolledBackBy.Some? ==> t'.audits[i] == t.audits[i])
  }

  lemma {:induction false} TrailOnlyGrows(t: Tenant, ops: seq<Op>)
    ensures Extends(t, Run(t, ops))
    decreases |ops|
  {
    if ops != [] {
      if ops[0].Revert? {
        FoundIsInRange(t.audits, ops[0].feedbackId);
      }
      assert Extends(t, Step(t, ops[0]));
      TrailOnlyGrows(Step(t, ops[0]), ops[1..]);
    }
  }

  /** A feedback that was rolled back can, after any further calls, neither be rolled back
      again nor be applied again, under its own id or as an event id. */
  lemma {:induction false} RolledBackForGood(t: Tenant, f: Uuid, who: string, ops: seq<Op>, who': string, s: Submission)
    requires IdsInv(t) && ScoresInv(t) && Undo(t, f, who).outcome.RolledBack?
    requires s.feedbackId == f || s.eventId == f
    ensures
      var t' := Run(Undo(t, f, who).tenant, ops);
      Undo(t', f, who') == RollbackStep(t', AlreadyRolledBack) && Applied(t', s) == t'
  {
    FoundIsInRange(t.audits, f);
    var i, t1 := FindNewest(t.audits, f).value, Undo(t, f, who).tenant;
    UndoKeepsIds(t, f, who);
    UndoKeepsScores(t, f, who);
    RunKeepsInv(t1, ops);
    TrailOnlyGrows(t1, ops);
    var t' := Run(t1, ops);
    assert t1.audits[i].rolledBackBy == Some(who) && t'.audits[i] == t1.audits[i];
    RollbackTargetIsUnique(t', i);
    assert Mentions(t'.audits[i], f);
  }

  // ---------- Which way a verdict moves trust ----------

  predicate Good(c: Correction) {
    c == FalsePositive || c == ConfirmedClean || c == BenignAnomaly
  }

  predicate Bad(c: Correction) {
    c == FalseNegative || c == ConfirmedMalicious || c == ConfirmedSuspicious
  }

  /** A new feedback raises the trust of its entity exactly if it clears the message and the
      trust is below 1, lowers it exactly if it incriminates it and the trust is above 0, and
      moves it by the amounts of the feedback table. No other entity moves. */
  lemma {:induction false} VerdictMovesTrust(t: Tenant, s: Submission, other: string)
    requires ScoresInv(t) && !IsKnown(t, s)
    ensures
      var x, y := Trust(t, s.entity), Trust(Applied(t, s), s.entity);
      && (y > x <==> Good(s.verdict) && x < 1.0)
      && (y < x <==> Bad(s.verdict) && x > 0.0)
      && MovesAsRated(x, y, s.verdict, s.level)
    ensures other != s.entity ==> Trust(Applied(t, s), other) == Trust(t, other)
  {
    var x, y := Trust(t, s.entity), Trust(Applied(t, s), s.entity);
    UpdateMovesAsRated(x, s.verdict, s.level);
    assert InUnit(x) && MovesAsRated(x, y, s.verdict, s.level);
    RatedDirection(x, y, s.verdict, s.level);
  }

  lemma RatedDirection(x: real, y: real, c: Correction, l: TrustLevel)
    requires InUnit(x) && MovesAsRated(x, y, c, l)
    ensures (y > x <==> Good(c) && x < 1.0) && (y < x <==> Bad(c) && x > 0.0)
  {
  }

  function Distance(x: real, y: real): real {
    if x <= y then y - x else x - y
  }

  /** The more an analyst is trusted, the further the same verdict moves the score, strictly
      so unless the end of the range or a verdict without effect stops it. */
  lemma {:induction false} RankMovesTrustFurther(t: Tenant, s: Submission)
    requires ScoresInv(t) && !IsKnown(t, s)
    ensures
      var x := Trust(t, s.entity);
      var junior := Trust(Applied(t, s.(level := JuniorAnalyst)), s.entity);
      var senior := Trust(Applied(t, s.(level := SeniorAnalyst)), s.entity);
      var lead := Trust(Applied(t, s.(level := LeadSocAdmin)), s.entity);
      && Distance(x, junior) <= Distance(x, senior) <= Distance(x, lead) <= 0.20
      && ((Good(s.verdict) && junior < 1.0) || (Bad(s.verdict) && junior > 0.0) ==> Distance(x, junior) < Distance(x, senior))
      && ((Good(s.verdict) && senior < 1.0) || (Bad(s.verdict) && senior > 0.0) ==> Distance(x, senior) < Distance(x, lead))
  {
    assert InUnit(Trust(t, s.entity));
    VerdictMovesTrust(t, s.(level := JuniorAnalyst), s.entity);
    VerdictMovesTrust(t, s.(level := SeniorAnalyst), s.entity);
    VerdictMovesTrust(t, s.(level := LeadSocAdmin), s.entity);
  }

  /** The record of an entity nobody has judged before. */
  lemma {:induction false} FirstFeedback(s: Submission)
    ensures
      var r := RecordOf(Applied(EMPTY, s), s.entity);
      && MovesAsRated(0.50, r.trust, s.verdict, s.level)
      && r.confidence == (if s.level == LeadSocAdmin then 0.55 else if s.level == SeniorAnalyst then 0.5425 else 0.525)
      && r.incidents == 1 && r.lastVerdict == Some(s.verdict)
      && r.falsePositives == (if s.verdict == FalsePositive then 1 else 0)
      && r.falseNegatives == (if s.verdict == FalseNegative || s.verdict == ConfirmedMalicious then 1 else 0)
  {
    UpdateMovesAsRated(0.50, s.verdict, s.level);
    match s.level {
      case JuniorAnalyst =>
      case SeniorAnalyst =>
      case LeadSocAdmin =>
      case OtherLevel(_) =>
    }
  }

  // ---------- The engine object ----------

  class TenantMemoryConvergenceEngine {
    var entities: map<Uuid, map<string, TrustRecord>>
    var audits: map<Uuid, seq<Audit>>
    var processed: map<Uuid, set<Uuid>>

    ghost predicate Valid()
      reads this
    {
      entities.Keys == audits.Keys == processed.Keys
    }

    function View(tenant: Uuid): Tenant
      reads this
      requires Valid()
    {
      if tenant in entities then Tenant(entities[tenant], audits[tenant], processed[tenant]) else EMPTY
    }

    constructor ()
      ensures Valid() && forall t :: View(t) == EMPTY
    {
      entities, audits, processed := map[], map[], map[];
    }

    /** A partition that was never opened reads as empty. */
    method OpenPartition(tenant: Uuid)
      requires Valid()
      modifies this
      ensures Valid() && tenant in entities
      ensures forall t: Uuid :: View(t) == old(View(t))
    {
      if tenant !in entities {
        entities, audits, processed := entities[tenant := map[]], audits[tenant := []], processed[tenant := {}];
      }
    }

    method Store(tenant: Uuid, t: Tenant)
      requires Valid() && tenant in entities
      modifies this
      ensures Valid() && View(tenant) == t
      ensures forall u: Uuid :: u != tenant ==> View(u) == old(View(u))
    {
      entities := entities[tenant := t.entities];
      audits := audits[tenant := t.audits];
      processed := processed[tenant := t.processed];
    }

    /** Tenants are partitioned: a call touches the state of its own tenant only. */
    method ApplyConvergence(tenant: Uuid, s: Submission) returns (applied: bool, prior: real, posterior: real, delta: real)
      requires Valid()
      modifies this
      ensures Valid() && View(tenant) == Applied(old(View(tenant)), s)
      ensures forall t: Uuid :: t != tenant ==> View(t) == old(View(t))
      ensures applied == !IsKnown(old(View(tenant)), s)
      ensures prior == old(Trust(View(tenant), s.entity)) && posterior == Trust(View(tenant), s.entity)
      ensures delta == if applied then Delta(s.verdict, s.level) else 0.0
      ensures applied ==> MovesAsRated(prior, posterior, s.verdict, s.level) && MovesAsRated(0.50, 0.50 + delta, s.verdict, s.level)
      ensures !applied ==> posterior == prior
      ensures applied ==>
                && View(tenant).audits ==
                   old(View(tenant)).audits + [Audit(s.eventId, s.feedbackId, s.entity, prior, posterior, delta, None)]
                && RecordOf(View(tenant), s.entity).lastVerdict == Some(s.verdict)
    {
      OpenPartition(tenant);
      var mine := entities[tenant];
      var r := if s.entity in mine then mine[s.entity] else FRESH;
      prior := r.trust;
      if s.eventId in processed[tenant] || s.feedbackId in processed[tenant] {
        return false, prior, prior, 0.0;
      }
      delta := Delta(s.verdict, s.level);
      var r' := Updated(r, s);
      posterior := r'.trust;
      UpdateMovesAsRated(prior, s.verdict, s.level);
      UpdateMovesAsRated(0.50, s.verdict, s.level);
      DeltaIsNeverClamped(s.verdict, s.level);
      var item := Audit(s.eventId, s.feedbackId, s.entity, prior, posterior, delta, None);
      Store(tenant, Tenant(mine[s.entity := r'], audits[tenant] + [item], processed[tenant] + {s.eventId, s.feedbackId}));
      applied := true;
    }

    method FindAudit(trail: seq<Audit>, f: Uuid) returns (found: Option<nat>)
      ensures found == FindNewest(trail, f)
    {
      var i := |trail|;
      assert trail[..|trail|] == trail;
      while i > 0
        invariant 0 <= i <= |trail|
        invariant FindNewest(trail, f) == FindNewest(trail[..i], f)
      {
        assert trail[..i][..i - 1] == trail[..i - 1];
        i := i - 1;
        if trail[i].feedbackId == f {
          return Some(i);
        }
      }
      return None;
    }

    method RollbackConvergence(tenant: Uuid, f: Uuid, caller: Caller) returns (outcome: Rollback)
      requires Valid()
      modifies this
      ensures Valid() && forall t: Uuid :: t != tenant ==> View(t) == old(View(t))
      ensures outcome == Unauthorized <==>
              Upper(caller.role) !in ["ADMIN", "SUPER_ADMIN", "LEAD_SOC_ADMIN"] || caller.tenant != tenant
      ensures if !IsAdmin(caller) || caller.tenant != tenant
              then outcome == Unauthorized && View(tenant) == old(View(tenant))
              else RollbackStep(View(tenant), outcome) == Undo(old(View(tenant)), f, caller.analyst)
    {
      if !IsAdmin(caller) || caller.tenant != tenant {
        return Unauthorized;
      }
      if tenant !in audits {
        return NotFound;
      }
      var trail := audits[tenant];
      FoundIsInRange(trail, f);
      var found := FindAudit(trail, f);
      if found.None? {
        return NotFound;
      }
      var a := trail[found.value];
      if a.rolledBackBy.Some? {
        return AlreadyRolledBack;
      }
      var mine := entities[tenant];
      if a.entity in mine {
        entities := entities[tenant := mine[a.entity := mine[a.entity].(trust := a.prior)]];
      }
      audits := audits[tenant := trail[found.value := a.(rolledBackBy := Some(caller.analyst))]];
      return RolledBack(a.prior);
    }
  }
}
