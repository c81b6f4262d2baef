/** Trust as a function of an entity's own history of updates and rollbacks. */
module ConvergenceReplay {
  import opened Common
  import opened Feedback
  import opened Convergence

  /** What happened to one entity. */
  datatype Item = Update(id: Uuid, delta: real) | Undone(id: Uuid)

  type Log = seq<Item>

  /** Position of an update in the log. */
  function IndexOf(log: Log, id: Uuid): Option<nat> {
    if log == [] then None
    else if log[|log| - 1].Update? && log[|log| - 1].id == id then Some(|log| - 1)
    else IndexOf(log[..|log| - 1], id)
  }

  lemma {:induction false} IndexInRange(log: Log, id: Uuid)
    ensures IndexOf(log, id).Some? ==> IndexOf(log, id).value < |log|
    decreases |log|
  {
    if log != [] {
      IndexInRange(log[..|log| - 1], id);
    }
  }

  /** Replay: an update moves the value by its delta within [0, 1]; a rollback restores the
      value the entity had just before the update it names. */
  function Value(log: Log): real
    decreases |log|
  {
    if log == [] then START
    else
      var before, last := log[..|log| - 1], log[|log| - 1];
      match last
      case Update(_, delta) => Unit(Value(before) + delta)
      case Undone(id) =>
        IndexInRange(before, id);
        match IndexOf(before, id)
        case None => Value(before)
        case Some(i) => Value(before[..i])
  }

  /** The entity's log grown by one call on the tenant. */
  function LogStep(t: Tenant, log: Log, op: Op, entity: string): Log {
    match op
    case Submit(s) =>
      if IsKnown(t, s) || s.entity != entity then log else log + [Update(s.feedbackId, Delta(s.verdict, s.level))]
    case Revert(f, who) =>
      FoundIsInRange(t.audits, f);
      if Undo(t, f, who).outcome.RolledBack? && t.audits[FindNewest(t.audits, f).value].entity == entity then log + [Undone(f)]
      else log
  }

  function LogRun(t: Tenant, log: Log, ops: seq<Op>, entity: string): Log
    decreases |ops|
  {
    if ops == [] then log else LogRun(Step(t, ops[0]), LogStep(t, log, ops[0], entity), ops[1..], entity)
  }

  /** Audit item `a` is in the log, and its prior score is the replayed value before it. */
  ghost predicate Backed(log: Log, a: Audit) {
    exists i :: BackedAt(log, a, i)
  }

  ghost predicate BackedAt(log: Log, a: Audit, i: nat) {
    i < |log| && log[i] == Update(a.feedbackId, a.delta) && IndexOf(log, a.feedbackId) == Some(i) && a.prior == Value(log[..i])
  }

  ghost predicate LogInv(t: Tenant, log: Log, entity: string) {
    && Trust(t, entity) == Value(log)
    && (forall i :: 0 <= i < |t.audits| && t.audits[i].entity == entity ==> Backed(log, t.audits[i]))
    && (forall i :: 0 <= i < |log| ==> log[i].id in t.processed)
  }

  lemma IndexOfConcat(log: Log, x: Item, id: Uuid)
    ensures IndexOf(log + [x], id) == if x.Update? && x.id == id then Some(|log|) else IndexOf(log, id)
  {
    assert (log + [x])[..|log|] == log;
  }

  lemma ValueOfUpdate(log: Log, x: Item)
    requires x.Update?
    ensures Value(log + [x]) == Unit(Value(log) + x.delta)
  {
    assert (log + [x])[..|log|] == log;
  }

  lemma ValueOfUndone(log: Log, x: Item, i: nat)
    requires x.Undone? && IndexOf(log, x.id) == Some(i)
    ensures i < |log| && Value(log + [x]) == Value(log[..i])
  {
    IndexInRange(log, x.id);
    assert (log + [x])[..|log|] == log;
  }

  lemma BackedStays(log: Log, x: Item, a: Audit)
    requires Backed(log, a) && (x.Update? ==> x.id != a.feedbackId)
    ensures Backed(log + [x], a)
  {
    var i: nat :| BackedAt(log, a, i);
    IndexOfConcat(log, x, a.feedbackId);
    assert (log + [x])[..i] == log[..i];
    assert BackedAt(log + [x], a, i);
  }

  lemma SubmitKeepsLog(t: Tenant, log: Log, s: Submission, entity: string)
    requires IdsInv(t) && LogInv(t, log, entity)
    ensures LogInv(Applied(t, s), LogStep(t, log, Submit(s), entity), entity)
  {
    if !IsKnown(t, s) && s.entity == entity {
      var x, t', n := Update(s.feedbackId, Delta(s.verdict, s.level)), Applied(t, s), |t.audits|;
      ValueOfUpdate(log, x);
      IndexOfConcat(log, x, s.feedbackId);
      assert (log + [x])[..|log|] == log;
      assert BackedAt(log + [x], t'.audits[n], |log|);
      forall i | 0 <= i < n && t'.audits[i].entity == entity
        ensures Backed(log + [x], t'.audits[i])
      {
        assert Mentions(t.audits[i], t.audits[i].feedbackId);
        BackedStays(log, x, t.audits[i]);
      }
    }
  }

  lemma RevertKeepsLog(t: Tenant, log: Log, f: Uuid, who: string, entity: string)
    requires IdsInv(t) && ScoresInv(t) && LogInv(t, log, entity)
    ensures LogInv(Undo(t, f, who).tenant, LogStep(t, log, Revert(f, who), entity), entity)
  {
    FoundIsInRange(t.audits, f);
    var t', log' := Undo(t, f, who).tenant, LogStep(t, log, Revert(f, who), entity);
    if Undo(t, f, who).outcome.RolledBack? {
      var n := FindNewest(t.audits, f).value;
      if t.audits[n].entity == entity {
        var k: nat :| BackedAt(log, t.audits[n], k);
        ValueOfUndone(log, Undone(f), k);
        assert Mentions(t.audits[n], f);
      }
      forall i | 0 <= i < |t'.audits| && t'.audits[i].entity == entity
        ensures Backed(log', t'.audits[i])
      {
        assert Backed(log, t.audits[i]);
        if log' != log {
          BackedStays(log, Undone(f), t.audits[i]);
        }
        MarkKeepsBacked(log', t.audits[i], t'.audits[i]);
      }
    }
  }

  lemma MarkKeepsBacked(log: Log, a: Audit, a': Audit)
    requires Backed(log, a) && a' == a.(rolledBackBy := a'.rolledBackBy)
    ensures Backed(log, a')
  {
    var i: nat :| BackedAt(log, a, i);
    assert BackedAt(log, a', i);
  }

  /** In every run an entity's stored trust is the replay of its own log. */
  lemma {:induction false} TrustIsReplay(t: Tenant, log: Log, ops: seq<Op>, entity: string)
    requires IdsInv(t) && ScoresInv(t) && LogInv(t, log, entity)
    ensures LogInv(Run(t, ops), LogRun(t, log, ops, entity), entity)
    decreases |ops|
  {
    if ops != [] {
      RunKeepsInv(t, [ops[0]]);
      assert Run(t, [ops[0]]) == Run(Step(t, ops[0]), []) == Step(t, ops[0]);
      match ops[0] {
        case Submit(s) => SubmitKeepsLog(t, log, s, entity);
        case Revert(f, who) => RevertKeepsLog(t, log, f, who, entity);
      }
      TrustIsReplay(Step(t, ops[0]), LogStep(t, log, ops[0], entity), ops[1..], entity);
    }
  }

  lemma TrustIsReplayFromStart(ops: seq<Op>, entity: string)
    ensures Trust(Run(EMPTY, ops), entity) == Value(LogRun(EMPTY, [], ops, entity))
  {
    TrustIsReplay(EMPTY, [], ops, entity);
  }

  // ---------- Counters and confidence ----------

  /** A call changes the record of one entity only. */
  lemma RecordAfterSubmit(t: Tenant, s: Submission, entity: string)
    ensures RecordOf(Applied(t, s), entity) ==
            if IsKnown(t, s) || s.entity != entity then RecordOf(t, entity) else Updated(RecordOf(t, entity), s)
  {
    if !IsKnown(t, s) {
      assert Applied(t, s).entities == t.entities[s.entity := Updated(RecordOf(t, s.entity), s)];
      if s.entity != entity {
        assert entity in t.entities <==> entity in Applied(t, s).entities;
      }
    }
  }

  /** A rollback touches nothing of a record but the trust. */
  lemma RecordAfterRevert(t: Tenant, f: Uuid, who: string, entity: string)
    ensures
      var r := RecordOf(Undo(t, f, who).tenant, entity);
      r == RecordOf(t, entity).(trust := r.trust)
  {
    FoundIsInRange(t.audits, f);
  }

  datatype Counter = Incidents | FalsePositives | FalseNegatives

  function Count(r: TrustRecord, c: Counter): int {
    match c
    case Incidents => r.incidents
    case FalsePositives => r.falsePositives
    case FalseNegatives => r.falseNegatives
  }

  /** What an applied verdict adds to a counter. */
  function CountedAs(v: Correction, c: Counter): int {
    match c
    case Incidents => 1
    case FalsePositives => if v.FalsePositive? then 1 else 0
    case FalseNegatives => if v.FalseNegative? || v.ConfirmedMalicious? then 1 else 0
  }

  function CountedNow(t: Tenant, op: Op, entity: string, c: Counter): int {
    if op.Revert? || IsKnown(t, op.submission) || op.submission.entity != entity then 0
    else CountedAs(op.submission.verdict, c)
  }

  function CountedRun(t: Tenant, ops: seq<Op>, entity: string, c: Counter): int
    decreases |ops|
  {
    if ops == [] then 0
    else CountedNow(t, ops[0], entity, c) + CountedRun(Step(t, ops[0]), ops[1..], entity, c)
  }

  lemma CountOfUpdate(r: TrustRecord, s: Submission, c: Counter)
    ensures Count(Updated(r, s), c) == Count(r, c) + CountedAs(s.verdict, c)
  {
  }

  lemma CountStep(t: Tenant, op: Op, entity: string, c: Counter)
    ensures Count(RecordOf(Step(t, op), entity), c) == Count(RecordOf(t, entity), c) + CountedNow(t, op, entity, c)
  {
    match op {
      case Submit(s) =>
        RecordAfterSubmit(t, s, entity);
        CountOfUpdate(RecordOf(t, entity), s, c);
      case Revert(f, who) => RecordAfterRevert(t, f, who, entity);
    }
  }

  /** Each of an entity's counters adds up the submissions applied to it; rollbacks undo none of them. */
  lemma {:induction false} CountersSurviveRollback(t: Tenant, ops: seq<Op>, entity: string, c: Counter)
    ensures Count(RecordOf(Run(t, ops), entity), c) == Count(RecordOf(t, entity), c) + CountedRun(t, ops, entity, c)
    decreases |ops|
  {
    if ops != [] {
      CountStep(t, ops[0], entity, c);
      CountersSurviveRollback(Step(t, ops[0]), ops[1..], entity, c);
    }
  }

  /** Analyst weight a run brings to bear on one entity. */
  function WeightRun(t: Tenant, ops: seq<Op>, entity: string): real
    decreases |ops|
  {
    if ops == [] then 0.0
    else WeightNow(t, ops[0], entity) + WeightRun(Step(t, ops[0]), ops[1..], entity)
  }

  function WeightNow(t: Tenant, op: Op, entity: string): real {
    if op.Revert? || IsKnown(t, op.submission) || op.submission.entity != entity then 0.0 else Weight(op.submission.level)
  }

  lemma ConfidenceStep(t: Tenant, op: Op, entity: string)
    requires InUnit(RecordOf(t, entity).confidence)
    ensures RecordOf(Step(t, op), entity).confidence == Unit(RecordOf(t, entity).confidence + 0.05 * WeightNow(t, op, entity))
    ensures WeightNow(t, op, entity) >= 0.0
  {
    match op {
      case Submit(s) => RecordAfterSubmit(t, s, entity);
      case Revert(f, who) => RecordAfterRevert(t, f, who, entity);
    }
  }

  /** Confidence is the capped sum of the weights applied, 5% of each, whatever is rolled back. */
  lemma {:induction false} ConfidenceIsCappedSum(t: Tenant, ops: seq<Op>, entity: string)
    requires InUnit(RecordOf(t, entity).confidence)
    ensures RecordOf(Run(t, ops), entity).confidence == Unit(RecordOf(t, entity).confidence + 0.05 * WeightRun(t, ops, entity))
    ensures WeightRun(t, ops, entity) >= 0.0
    decreases |ops|
  {
    if ops != [] {
      ConfidenceStep(t, ops[0], entity);
      ConfidenceIsCappedSum(Step(t, ops[0]), ops[1..], entity);
    }
  }

  // ---------- Rolling back newest first ----------

  ghost predicate OnlyUpdates(log: Log) {
    && (forall i :: 0 <= i < |log| ==> log[i].Update?)
    && (forall i, j :: 0 <= i < j < |log| ==> log[i].id != log[j].id)
  }

  /** The rollbacks of the newest `m` updates, newest first. */
  function Unwind(log: Log, m: nat): Log
    requires m <= |log|
  {
    if m == 0 then [] else Unwind(log, m - 1) + [Undone(log[|log| - m].id)]
  }

  lemma {:induction false} IndexOfUpdate(log: Log, i: nat)
    requires OnlyUpdates(log) && i < |log|
    ensures IndexOf(log, log[i].id) == Some(i)
    decreases |log|
  {
    if i < |log| - 1 {
      IndexOfUpdate(log[..|log| - 1], i);
    }
  }

  lemma {:induction false} IndexOfUnwound(log: Log, m: nat, id: Uuid)
    requires m <= |log|
    ensures IndexOf(log + Unwind(log, m), id) == IndexOf(log, id)
  {
    if m == 0 {
      assert log + Unwind(log, 0) == log;
    } else {
      IndexOfUnwound(log, m - 1, id);
      var x := Undone(log[|log| - m].id);
      UnwindOneMore(log, m);
      IndexOfConcat(log + Unwind(log, m - 1), x, id);
    }
  }

  lemma ValueUnwound(log: Log, rest: Log, id: Uuid, i: nat)
    requires i < |log| && IndexOf(log + rest, id) == Some(i)
    ensures Value((log + rest) + [Undone(id)]) == Value(log[..i])
  {
    ValueOfUndone(log + rest, Undone(id), i);
    assert (log + rest)[..i] == log[..i];
  }

  lemma UnwoundIndex(log: Log, m: nat)
    requires OnlyUpdates(log) && 0 < m <= |log|
    ensures IndexOf(log + Unwind(log, m - 1), log[|log| - m].id) == Some(|log| - m)
  {
    IndexOfUpdate(log, |log| - m);
    IndexOfUnwound(log, m - 1, log[|log| - m].id);
  }

  /** Rolling back an entity's updates newest first steps its trust through exactly the
      earlier values, down to the initial 0.50. */
  lemma {:induction false} UnwindingRestoresEarlierValues(log: Log, m: nat)
    requires OnlyUpdates(log) && m <= |log|
    ensures Value(log + Unwind(log, m)) == Value(log[..|log| - m])
  {
    if m == 0 {
      assert log + Unwind(log, 0) == log && log[..|log|] == log;
    } else {
      UnwoundIndex(log, m);
      UnwindOneMore(log, m);
      ValueUnwound(log, Unwind(log, m - 1), log[|log| - m].id, |log| - m);
    }
  }

  /** The feedback `f` on `entity` is in the trail and not rolled back. */
  ghost predicate Pending(t: Tenant, f: Uuid, entity: string) {
    exists j :: PendingAt(t, f, entity, j)
  }

  ghost predicate PendingAt(t: Tenant, f: Uuid, entity: string, j: int) {
    0 <= j < |t.audits| && t.audits[j].feedbackId == f && t.audits[j].entity == entity && t.audits[j].rolledBackBy.None?
  }

  function Submits(ss: seq<Submission>): seq<Op> {
    seq(|ss|, i requires 0 <= i < |ss| => Submit(ss[i]))
  }

  function Reverts(log: Log, m: nat, who: string): seq<Op>
    requires m <= |log|
  {
    if m == 0 then [] else Reverts(log, m - 1, who) + [Revert(log[|log| - m].id, who)]
  }

  lemma {:induction false} RunConcat(t: Tenant, log: Log, ops: seq<Op>, op: Op, entity: string)
    ensures Run(t, ops + [op]) == Step(Run(t, ops), op)
    ensures LogRun(t, log, ops + [op], entity) == LogStep(Run(t, ops), LogRun(t, log, ops, entity), op, entity)
    decreases |ops|
  {
    if ops == [] {
      assert ops + [op] == [op] && [op][1..] == [];
    } else {
      assert (ops + [op])[0] == ops[0] && (ops + [op])[1..] == ops[1..] + [op];
      RunConcat(Step(t, ops[0]), LogStep(t, log, ops[0], entity), ops[1..], op, entity);
    }
  }

  ghost predicate AllPending(t: Tenant, log: Log, entity: string, n: nat) {
    forall i :: 0 <= i < |log| && i < n ==> Pending(t, log[i].id, entity)
  }

  lemma SubmitStaysPending(t: Tenant, log: Log, s: Submission, entity: string)
    requires OnlyUpdates(log) && AllPending(t, log, entity, |log|)
    requires forall i :: 0 <= i < |log| ==> log[i].id in t.processed
    ensures
      var t', log' := Applied(t, s), LogStep(t, log, Submit(s), entity);
      OnlyUpdates(log') && AllPending(t', log', entity, |log'|) && forall i :: 0 <= i < |log'| ==> log'[i].id in t'.processed
  {
    var t', log' := Applied(t, s), LogStep(t, log, Submit(s), entity);
    forall i | 0 <= i < |log'|
      ensures Pending(t', log'[i].id, entity)
    {
      if i < |log| {
        var j :| PendingAt(t, log[i].id, entity, j);
        assert PendingAt(t', log[i].id, entity, j);
      } else {
        assert PendingAt(t', s.feedbackId, entity, |t.audits|);
      }
    }
  }

  lemma {:induction false} SubmitsArePending(t: Tenant, log: Log, ss: seq<Submission>, entity: string)
    requires OnlyUpdates(log) && AllPending(t, log, entity, |log|)
    requires forall i :: 0 <= i < |log| ==> log[i].id in t.processed
    ensures
      var t', log' := Run(t, Submits(ss)), LogRun(t, log, Submits(ss), entity);
      OnlyUpdates(log') && AllPending(t', log', entity, |log'|)
    decreases |ss|
  {
    if ss != [] {
      SubmitStaysPending(t, log, ss[0], entity);
      assert Submits(ss)[1..] == Submits(ss[1..]);
      SubmitsArePending(Applied(t, ss[0]), LogStep(t, log, Submit(ss[0]), entity), ss[1..], entity);
    }
  }

  lemma UndoPending(t: Tenant, f: Uuid, who: string, entity: string)
    requires IdsInv(t) && Pending(t, f, entity)
    ensures Undo(t, f, who).outcome.RolledBack?
    ensures forall log :: LogStep(t, log, Revert(f, who), entity) == log + [Undone(f)]
    ensures forall g :: g != f && Pending(t, g, entity) ==> Pending(Undo(t, f, who).tenant, g, entity)
  {
    var n :| PendingAt(t, f, entity, n);
    RollbackTargetIsUnique(t, n);
    FoundIsInRange(t.audits, f);
    var t' := Undo(t, f, who).tenant;
    forall g | g != f && Pending(t, g, entity)
      ensures Pending(t', g, entity)
    {
      var j :| PendingAt(t, g, entity, j);
      assert PendingAt(t', g, entity, j);
    }
  }

  lemma ReachableInv(ops: seq<Op>, entity: string)
    ensures IdsInv(Run(EMPTY, ops)) && ScoresInv(Run(EMPTY, ops))
    ensures LogInv(Run(EMPTY, ops), LogRun(EMPTY, [], ops, entity), entity)
  {
    RunKeepsInv(EMPTY, ops);
    TrustIsReplay(EMPTY, [], ops, entity);
  }

  lemma UndoNext(ops: seq<Op>, log: Log, soFar: Log, entity: string, i: nat, who: string)
    requires OnlyUpdates(log) && i < |log| && AllPending(Run(EMPTY, ops), log, entity, i + 1)
    ensures LogStep(Run(EMPTY, ops), soFar, Revert(log[i].id, who), entity) == soFar + [Undone(log[i].id)]
    ensures AllPending(Step(Run(EMPTY, ops), Revert(log[i].id, who)), log, entity, i)
  {
    var t := Run(EMPTY, ops);
    ReachableInv(ops, entity);
    assert Pending(t, log[i].id, entity);
    UndoPending(t, log[i].id, who, entity);
    forall j | 0 <= j < i
      ensures Pending(Undo(t, log[i].id, who).tenant, log[j].id, entity)
    {
      assert Pending(t, log[j].id, entity);
    }
  }

  lemma UnwindOneMore(log: Log, m: nat)
    requires 0 < m <= |log|
    ensures log + Unwind(log, m) == (log + Unwind(log, m - 1)) + [Undone(log[|log| - m].id)]
  {
  }

  /** After `ops` the entity's log is `soFar`, and the first `n` updates of `log` stand. */
  ghost predicate Shows(ops: seq<Op>, soFar: Log, log: Log, entity: string, n: nat) {
    LogRun(EMPTY, [], ops, entity) == soFar && AllPending(Run(EMPTY, ops), log, entity, n)
  }

  lemma RevertOneMore(ops: seq<Op>, soFar: Log, log: Log, entity: string, i: nat, who: string)
    requires OnlyUpdates(log) && i < |log| && Shows(ops, soFar, log, entity, i + 1)
    ensures Shows(ops + [Revert(log[i].id, who)], soFar + [Undone(log[i].id)], log, entity, i)
  {
    RunConcat(EMPTY, [], ops, Revert(log[i].id, who), entity);
    UndoNext(ops, log, soFar, entity, i, who);
  }

  lemma RevertsConcat(ops: seq<Op>, log: Log, m: nat, who: string)
    requires 0 < m <= |log|
    ensures ops + Reverts(log, m, who) == (ops + Reverts(log, m - 1, who)) + [Revert(log[|log| - m].id, who)]
  {
  }

  /** After the first `m` rollbacks the log shows them and the older updates are untouched. */
  ghost predicate Unwound(ops: seq<Op>, log: Log, entity: string, m: nat, who: string)
    requires m <= |log|
  {
    Shows(ops + Reverts(log, m, who), log + Unwind(log, m), log, entity, |log| - m)
  }

  lemma UnwoundStep(ops: seq<Op>, log: Log, entity: string, m: nat, who: string)
    requires OnlyUpdates(log) && 0 < m <= |log| && Unwound(ops, log, entity, m - 1, who)
    ensures Unwound(ops, log, entity, m, who)
  {
    RevertsConcat(ops, log, m, who);
    UnwindOneMore(log, m);
    RevertOneMore(ops + Reverts(log, m - 1, who), log + Unwind(log, m - 1), log, entity, |log| - m, who);
  }

  /** Each rollback of the newest remaining update succeeds and is logged. */
  lemma {:induction false} RevertsUnwind(ops: seq<Op>, log: Log, entity: string, m: nat, who: string)
    requires OnlyUpdates(log) && Unwound(ops, log, entity, 0, who) && m <= |log|
    ensures Unwound(ops, log, entity, m, who)
  {
    if m > 0 {
      RevertsUnwind(ops, log, entity, m - 1, who);
      UnwoundStep(ops, log, entity, m, who);
    }
  }

  /** On the engine: after any submissions, rolling an entity's updates back newest first
      takes its trust through the values it had, back to 0.50 after all of them. */
  lemma {:induction false} UnwindRestoresTrust(ss: seq<Submission>, entity: string, log: Log, m: nat, who: string)
    requires log == LogRun(EMPTY, [], Submits(ss), entity) && m <= |log|
    ensures Trust(Run(EMPTY, Submits(ss) + Reverts(log, m, who)), entity) == Value(log[..|log| - m])
    ensures m == |log| ==> Trust(Run(EMPTY, Submits(ss) + Reverts(log, m, who)), entity) == START
  {
    SubmitsArePending(EMPTY, [], ss, entity);
    assert Unwound(Submits(ss), log, entity, 0, who) by {
      assert Submits(ss) + Reverts(log, 0, who) == Submits(ss) && log + Unwind(log, 0) == log;
    }
    RevertsUnwind(Submits(ss), log, entity, m, who);
    TrustIsReplayFromStart(Submits(ss) + Reverts(log, m, who), entity);
    UnwindingRestoresEarlierValues(log, m);
  }
}
