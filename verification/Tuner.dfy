/** Sensitivity tuning: error rates of a feedback window, the advisory recommendation drawn
    from them, and its administrative application. Rates are reals. */
module Tuner {
  import opened Common
  import opened Feedback

  datatype Entry = Entry(tenant: Uuid, verdict: Correction, createdAt: real)

  datatype Tally = Tally(fp: nat, fn: nat, clean: nat, malicious: nat, suspicious: nat, benign: nat, escalated: nat,
                         distribution: map<Correction, nat>)

  datatype Analytics = Analytics(samples: nat, counts: Tally, fpr: Option<real>, fnr: Option<real>)

  function Window(entries: seq<Entry>, tenant: Uuid, start: real, end: real): seq<Entry> {
    if entries == [] then []
    else
      var e := entries[|entries| - 1];
      Window(entries[..|entries| - 1], tenant, start, end) +
      if e.tenant == tenant && start <= e.createdAt <= end then [e] else []
  }

  function CountOf(w: seq<Entry>, v: Correction): nat {
    if w == [] then 0 else CountOf(w[..|w| - 1], v) + if w[|w| - 1].verdict == v then 1 else 0
  }

  function Verdicts(w: seq<Entry>): set<Correction> {
    set e | e in w :: e.verdict
  }

  function Rate(errors: nat, others: nat): Option<real> {
    if errors + others > 0 then Some(errors as real / (errors + others) as real) else None
  }

  /** The counters of a window as filter counts. */
  function CountsOf(w: seq<Entry>): Tally {
    Tally(CountOf(w, FalsePositive), CountOf(w, FalseNegative), CountOf(w, ConfirmedClean), CountOf(w, ConfirmedMalicious),
          CountOf(w, ConfirmedSuspicious), CountOf(w, BenignAnomaly), CountOf(w, NeedsEscalation), Distribution(w))
  }

  function Distribution(w: seq<Entry>): map<Correction, nat> {
    map v | v in Verdicts(w) :: CountOf(w, v)
  }

  function Rated(samples: nat, t: Tally): Analytics {
    Analytics(samples, t, Rate(t.fp, t.clean + t.benign), Rate(t.fn, t.malicious + t.suspicious))
  }

  function Analyze(w: seq<Entry>): Analytics {
    Rated(|w|, CountsOf(w))
  }

  // ---------- Conservation of counts ----------

  ghost function Pick(m: map<Correction, nat>): Correction
    requires m != map[]
    ensures Pick(m) in m
  {
    assert m.Keys != {};
    var k :| k in m;
    k
  }

  ghost function Total(m: map<Correction, nat>): nat {
    if m == map[] then 0 else m[Pick(m)] + Total(m - {Pick(m)})
  }

  /** The total does not depend on the order in which the entries are taken. */
  lemma {:induction false} TotalWithout(m: map<Correction, nat>, k: Correction)
    requires k in m
    ensures Total(m) == m[k] + Total(m - {k})
    decreases |m|
  {
    var j := Pick(m);
    if j != k {
      TotalWithout(m - {j}, k);
      TotalWithout(m - {k}, j);
      assert m - {j} - {k} == m - {k} - {j};
    }
  }

  lemma {:induction false} CountZero(w: seq<Entry>, v: Correction)
    ensures CountOf(w, v) > 0 <==> v in Verdicts(w)
    decreases |w|
  {
    if w != [] {
      var before, e := w[..|w| - 1], w[|w| - 1];
      CountZero(before, v);
      assert w == before + [e];
      assert Verdicts(w) == Verdicts(before) + {e.verdict};
    }
  }

  lemma DistributionStep(before: seq<Entry>, e: Entry)
    ensures
      var d := Distribution(before);
      Distribution(before + [e]) == d[e.verdict := (if e.verdict in d then d[e.verdict] else 0) + 1]
  {
    var w := before + [e];
    assert w[..|before|] == before;
    assert Verdicts(w) == Verdicts(before) + {e.verdict};
    CountZero(before, e.verdict);
  }

  lemma TotalBump(d: map<Correction, nat>, v: Correction)
    ensures Total(d[v := (if v in d then d[v] else 0) + 1]) == Total(d) + 1
  {
    var d' := d[v := (if v in d then d[v] else 0) + 1];
    TotalWithout(d', v);
    if v in d {
      TotalWithout(d, v);
      assert d' - {v} == d - {v};
    } else {
      assert d' - {v} == d;
    }
  }

  lemma {:induction false} DistributionSumsToSamples(w: seq<Entry>)
    ensures Total(Distribution(w)) == |w|
    decreases |w|
  {
    if w == [] {
      assert Distribution(w) == map[];
    } else {
      var before, e := w[..|w| - 1], w[|w| - 1];
      assert w == before + [e];
      DistributionSumsToSamples(before);
      DistributionStep(before, e);
      TotalBump(Distribution(before), e.verdict);
    }
  }

  function SevenCounters(a: Tally): nat {
    a.fp + a.fn + a.clean + a.malicious + a.suspicious + a.benign + a.escalated
  }

  function CountOther(w: seq<Entry>): nat {
    if w == [] then 0 else CountOther(w[..|w| - 1]) + if w[|w| - 1].verdict.OtherText? then 1 else 0
  }

  lemma {:induction false} CountersAndOthers(w: seq<Entry>)
    ensures SevenCounters(CountsOf(w)) + CountOther(w) == |w|
    ensures CountOther(w) == 0 <==> forall e :: e in w ==> !e.verdict.OtherText?
    decreases |w|
  {
    if w != [] {
      var before, e := w[..|w| - 1], w[|w| - 1];
      CountersAndOthers(before);
      assert w == before + [e];
      match e.verdict {
        case FalsePositive =>
        case _ =>
      }
    }
  }

  /** The seven counters add up to the sample count exactly if every verdict of the window
      is one of the seven; the error distribution always does. Both rates lie in [0, 1]. */
  lemma {:induction false} CountsAreConserved(w: seq<Entry>)
    ensures
      var a := Analyze(w);
      && (SevenCounters(a.counts) == a.samples <==> forall e :: e in w ==> !e.verdict.OtherText?)
      && Total(a.counts.distribution) == a.samples
      && (a.fpr.Some? ==> 0.0 <= a.fpr.value <= 1.0)
      && (a.fnr.Some? ==> 0.0 <= a.fnr.value <= 1.0)
  {
    CountersAndOthers(w);
    DistributionSumsToSamples(w);
    var a := Analyze(w);
    RateInUnit(a.counts.fp, a.counts.clean + a.counts.benign);
    RateInUnit(a.counts.fn, a.counts.malicious + a.counts.suspicious);
  }

  lemma RateInUnit(errors: nat, others: nat)
    ensures Rate(errors, others).Some? ==> 0.0 <= Rate(errors, others).value <= 1.0
  {
    if errors + others > 0 {
      QuotientAtLeast(errors as real, (errors + others) as real, 0.0);
      QuotientAtLeast(errors as real, (errors + others) as real, 1.0);
    }
  }

  lemma QuotientAtLeast(x: real, y: real, bound: real)
    requires y > 0.0
    ensures x / y >= bound <==> x >= bound * y
    ensures x / y > bound <==> x > bound * y
  {
    var q := x / y;
    assert q * y == x;
    if q > bound {
      assert (q - bound) * y > 0.0;
    } else if q < bound {
      assert (bound - q) * y > 0.0;
    }
  }

  // ---------- Recommendations ----------

  datatype Direction = Insufficient | Decrease | Increase | Maintain

  function Recommend(a: Analytics, minSamples: int): Direction {
    if a.samples < minSamples then Insufficient
    else if a.fpr.Some? && a.fpr.value >= 0.15 && (a.fnr.None? || a.fnr.value < 0.05) then Decrease
    else if a.fnr.Some? && a.fnr.value >= 0.05 && (a.fpr.None? || a.fpr.value < 0.10) then Increase
    else Maintain
  }

  lemma MoreErrorsRaiseRate(errors: nat, others: nat, extra: nat, bound: real)
    requires Rate(errors, others).Some? && Rate(errors, others).value >= bound && bound <= 1.0
    ensures Rate(errors + extra, others).Some? && Rate(errors + extra, others).value >= bound
  {
    var x, y, z := errors as real, (errors + others) as real, extra as real;
    QuotientAtLeast(x, y, bound);
    QuotientAtLeast(x + z, y + z, bound);
    assert (1.0 - bound) * z >= 0.0;
    assert bound * (y + z) == bound * y + bound * z;
    assert (errors + extra) as real == x + z && (errors + extra + others) as real == y + z;
  }

  lemma {:induction false} CountOfConcat(w: seq<Entry>, extra: seq<Entry>, v: Correction)
    ensures CountOf(w + extra, v) == CountOf(w, v) + CountOf(extra, v)
    decreases |extra|
  {
    if extra == [] {
      assert w + extra == w;
    } else {
      assert (w + extra)[..|w + extra| - 1] == w + extra[..|extra| - 1];
      CountOfConcat(w, extra[..|extra| - 1], v);
    }
  }

  lemma {:induction false} CountOfUniform(extra: seq<Entry>, u: Correction, v: Correction)
    requires forall e :: e in extra ==> e.verdict == u
    ensures CountOf(extra, v) == if u == v then |extra| else 0
    decreases |extra|
  {
    if extra != [] {
      assert extra[|extra| - 1] in extra;
      CountOfUniform(extra[..|extra| - 1], u, v);
    }
  }

  lemma AddedVerdict(w: seq<Entry>, extra: seq<Entry>, u: Correction, v: Correction)
    requires forall e :: e in extra ==> e.verdict == u
    ensures CountOf(w + extra, v) == CountOf(w, v) + if u == v then |extra| else 0
  {
    CountOfConcat(w, extra, v);
    CountOfUniform(extra, u, v);
  }

  /** Advice to lower sensitivity survives any number of further false positives. */
  lemma {:induction false} DecreaseSurvivesFalsePositives(w: seq<Entry>, extra: seq<Entry>, minSamples: int)
    requires Recommend(Analyze(w), minSamples) == Decrease
    requires forall e :: e in extra ==> e.verdict == FalsePositive
    ensures Recommend(Analyze(w + extra), minSamples) == Decrease
  {
    var a, b := Analyze(w), Analyze(w + extra);
    AddedVerdict(w, extra, FalsePositive, FalsePositive);
    AddedVerdict(w, extra, FalsePositive, FalseNegative);
    AddedVerdict(w, extra, FalsePositive, ConfirmedClean);
    AddedVerdict(w, extra, FalsePositive, BenignAnomaly);
    AddedVerdict(w, extra, FalsePositive, ConfirmedMalicious);
    AddedVerdict(w, extra, FalsePositive, ConfirmedSuspicious);
    MoreErrorsRaiseRate(a.counts.fp, a.counts.clean + a.counts.benign, |extra|, 0.15);
    assert b.fpr == Rate(a.counts.fp + |extra|, a.counts.clean + a.counts.benign) && b.fnr == a.fnr;
  }

  /** Advice to raise sensitivity survives any number of further false negatives. */
  lemma {:induction false} IncreaseSurvivesFalseNegatives(w: seq<Entry>, extra: seq<Entry>, minSamples: int)
    requires Recommend(Analyze(w), minSamples) == Increase
    requires forall e :: e in extra ==> e.verdict == FalseNegative
    ensures Recommend(Analyze(w + extra), minSamples) == Increase
  {
    var a, b := Analyze(w), Analyze(w + extra);
    AddedVerdict(w, extra, FalseNegative, FalsePositive);
    AddedVerdict(w, extra, FalseNegative, FalseNegative);
    AddedVerdict(w, extra, FalseNegative, ConfirmedClean);
    AddedVerdict(w, extra, FalseNegative, BenignAnomaly);
    AddedVerdict(w, extra, FalseNegative, ConfirmedMalicious);
    AddedVerdict(w, extra, FalseNegative, ConfirmedSuspicious);
    MoreErrorsRaiseRate(a.counts.fn, a.counts.malicious + a.counts.suspicious, |extra|, 0.05);
    assert b.fnr == Rate(a.counts.fn + |extra|, a.counts.malicious + a.counts.suspicious) && b.fpr == a.fpr;
  }

  // ---------- The same, counted on the entries ----------

  /** Positions of the tenant's entries from `start` to `end` whose verdict is one of `vs`. */
  ghost function Positions(entries: seq<Entry>, tenant: Uuid, start: real, end: real, vs: set<Correction>): set<int> {
    set i | 0 <= i < |entries| && entries[i].tenant == tenant && start <= entries[i].createdAt <= end && entries[i].verdict in vs
  }

  /** Positions of all the tenant's entries from `start` to `end`. */
  ghost function Samples(entries: seq<Entry>, tenant: Uuid, start: real, end: real): set<int> {
    set i | 0 <= i < |entries| && entries[i].tenant == tenant && start <= entries[i].createdAt <= end
  }

  lemma WindowConcat(before: seq<Entry>, e: Entry, tenant: Uuid, start: real, end: real)
    ensures
      var w := Window(before, tenant, start, end);
      Window(before + [e], tenant, start, end) == if e.tenant == tenant && start <= e.createdAt <= end then w + [e] else w
  {
    assert (before + [e])[..|before|] == before;
    assert Window(before, tenant, start, end) + [] == Window(before, tenant, start, end);
  }

  lemma {:induction false} SamplesAreCounted(entries: seq<Entry>, tenant: Uuid, start: real, end: real)
    ensures |Window(entries, tenant, start, end)| == |Samples(entries, tenant, start, end)|
    decreases |entries|
  {
    if entries != [] {
      var before, e := entries[..|entries| - 1], entries[|entries| - 1];
      SamplesAreCounted(before, tenant, start, end);
      WindowConcat(before, e, tenant, start, end);
      assert entries == before + [e];
      var more := if e.tenant == tenant && start <= e.createdAt <= end then {|before|} else {};
      assert Samples(entries, tenant, start, end) == Samples(before, tenant, start, end) + more;
    }
  }

  function CountIn(w: seq<Entry>, vs: set<Correction>): nat {
    if w == [] then 0 else CountIn(w[..|w| - 1], vs) + if w[|w| - 1].verdict in vs then 1 else 0
  }

  lemma CountInConcat(w: seq<Entry>, e: Entry, vs: set<Correction>)
    ensures CountIn(w + [e], vs) == CountIn(w, vs) + if e.verdict in vs then 1 else 0
  {
    assert (w + [e])[..|w|] == w;
  }

  lemma {:induction false} PositionsAreCounted(entries: seq<Entry>, tenant: Uuid, start: real, end: real, vs: set<Correction>)
    ensures CountIn(Window(entries, tenant, start, end), vs) == |Positions(entries, tenant, start, end, vs)|
    decreases |entries|
  {
    if entries != [] {
      var before, e := entries[..|entries| - 1], entries[|entries| - 1];
      PositionsAreCounted(before, tenant, start, end, vs);
      CountInConcat(Window(before, tenant, start, end), e, vs);
      WindowConcat(before, e, tenant, start, end);
      OnePositionMore(before, e, tenant, start, end, vs);
      assert entries == before + [e];
    }
  }

  lemma OnePositionMore(before: seq<Entry>, e: Entry, tenant: Uuid, start: real, end: real, vs: set<Correction>)
    ensures |Positions(before + [e], tenant, start, end, vs)| == |Positions(before, tenant, start, end, vs)| +
            if e.tenant == tenant && start <= e.createdAt <= end && e.verdict in vs then 1 else 0
  {
    var all, more := before + [e], if e.tenant == tenant && start <= e.createdAt <= end && e.verdict in vs then {|before|} else {};
    assert forall i :: 0 <= i < |before| ==> all[i] == before[i];
    assert Positions(all, tenant, start, end, vs) == Positions(before, tenant, start, end, vs) + more;
  }

  lemma {:induction false} CountInOne(w: seq<Entry>, v: Correction)
    ensures CountIn(w, {v}) == CountOf(w, v)
    decreases |w|
  {
    if w != [] {
      CountInOne(w[..|w| - 1], v);
    }
  }

  lemma {:induction false} CountInThree(w: seq<Entry>, u: Correction, v: Correction, x: Correction)
    requires u != v && v != x && u != x
    ensures CountIn(w, {u, v, x}) == CountOf(w, u) + CountOf(w, v) + CountOf(w, x)
    decreases |w|
  {
    if w != [] {
      CountInThree(w[..|w| - 1], u, v, x);
    }
  }

  /** The share of `errors` in `all` is at least `bound`, or undefined or below it. */
  predicate AtLeast(errors: nat, all: nat, bound: real) {
    all > 0 && errors as real >= bound * all as real
  }

  lemma RateAgainst(errors: nat, others: nat, bound: real)
    ensures AtLeast(errors, errors + others, bound) <==> Rate(errors, others).Some? && Rate(errors, others).value >= bound
  {
    if errors + others > 0 {
      QuotientAtLeast(errors as real, (errors + others) as real, bound);
    }
  }

  /** The advice that the entries of a window call for. */
  ghost predicate CalledFor(d: Direction, entries: seq<Entry>, tenant: Uuid, start: real, end: real, minSamples: int) {
    var enough := |Samples(entries, tenant, start, end)| >= minSamples;
    var fp := |Positions(entries, tenant, start, end, {FalsePositive})|;
    var clean := |Positions(entries, tenant, start, end, {FalsePositive, ConfirmedClean, BenignAnomaly})|;
    var fn := |Positions(entries, tenant, start, end, {FalseNegative})|;
    var threat := |Positions(entries, tenant, start, end, {FalseNegative, ConfirmedMalicious, ConfirmedSuspicious})|;
    && (d == Insufficient <==> !enough)
    && (d == Decrease <==> enough && AtLeast(fp, clean, 0.15) && !AtLeast(fn, threat, 0.05))
    && (d == Increase <==> enough && AtLeast(fn, threat, 0.05) && !AtLeast(fp, clean, 0.10))
  }

  /** The direction depends on the tenant's own entries within the window alone: too few of
      them, at least 15% false positives among what is harmless with fewer than 5% false
      negatives among what is not, or at least 5% of these with fewer than 10% of those. */
  lemma {:induction false} DirectionIsCalledFor(entries: seq<Entry>, tenant: Uuid, start: real, end: real, minSamples: int)
    ensures CalledFor(Recommend(Analyze(Window(entries, tenant, start, end)), minSamples), entries, tenant, start, end, minSamples)
  {
    WindowIsCounted(entries, tenant, start, end);
    var c := Analyze(Window(entries, tenant, start, end)).counts;
    RateAgainst(c.fp, c.clean + c.benign, 0.15);
    RateAgainst(c.fp, c.clean + c.benign, 0.10);
    RateAgainst(c.fn, c.malicious + c.suspicious, 0.05);
  }

  lemma WindowIsCounted(entries: seq<Entry>, tenant: Uuid, start: real, end: real)
    ensures
      var w := Window(entries, tenant, start, end);
      && |w| == |Samples(entries, tenant, start, end)|
      && CountOf(w, FalsePositive) == |Positions(entries, tenant, start, end, {FalsePositive})|
      && CountOf(w, FalsePositive) + CountOf(w, ConfirmedClean) + CountOf(w, BenignAnomaly) ==
         |Positions(entries, tenant, start, end, {FalsePositive, ConfirmedClean, BenignAnomaly})|
      && CountOf(w, FalseNegative) == |Positions(entries, tenant, start, end, {FalseNegative})|
      && CountOf(w, FalseNegative) + CountOf(w, ConfirmedMalicious) + CountOf(w, ConfirmedSuspicious) ==
         |Positions(entries, tenant, start, end, {FalseNegative, ConfirmedMalicious, ConfirmedSuspicious})|
  {
    var w := Window(entries, tenant, start, end);
    SamplesAreCounted(entries, tenant, start, end);
    PositionsAreCounted(entries, tenant, start, end, {FalsePositive});
    PositionsAreCounted(entries, tenant, start, end, {FalsePositive, ConfirmedClean, BenignAnomaly});
    PositionsAreCounted(entries, tenant, start, end, {FalseNegative});
    PositionsAreCounted(entries, tenant, start, end, {FalseNegative, ConfirmedMalicious, ConfirmedSuspicious});
    CountInOne(w, FalsePositive);
    CountInOne(w, FalseNegative);
    CountInThree(w, FalsePositive, ConfirmedClean, BenignAnomaly);
    CountInThree(w, FalseNegative, ConfirmedMalicious, ConfirmedSuspicious);
  }

  // ---------- Sensitivity tiers ----------

  /** Upper-cased sensitivity settings; any other text is `OtherTier`. */
  datatype Tier = Aggressive | High | Balanced | Standard | Permissive | Low | OtherTier(text: string)

  function StepDown(t: Tier): Tier {
    match t
    case Aggressive => Balanced
    case High => Balanced
    case _ => Permissive
  }

  function StepUp(t: Tier): Tier {
    match t
    case Permissive => Balanced
    case Low => Balanced
    case _ => Aggressive
  }

  function Target(d: Direction, current: Tier): Tier {
    match d
    case Decrease => StepDown(current)
    case Increase => StepUp(current)
    case _ => current
  }

  function Rank(t: Tier): Option<int> {
    match t
    case Permissive => Some(0)
    case Low => Some(0)
    case Balanced => Some(1)
    case Standard => Some(1)
    case Aggressive => Some(2)
    case High => Some(2)
    case OtherTier(_) => None
  }

  /** `to` is the tier one below or above `from`, or the end of the scale if `from` is
      there already or is no tier at all. */
  predicate OneStep(d: Direction, from: Tier, to: Tier) {
    match d
    case Decrease => if from == Aggressive || from == High then to == Balanced else to == Permissive
    case Increase => if from == Permissive || from == Low then to == Balanced else to == Aggressive
    case _ => to == from
  }

  lemma {:induction false} TargetIsOneStep(d: Direction, seen: Tier)
    ensures OneStep(d, seen, Target(d, seen))
    ensures
      var from, to := Rank(seen), Rank(Target(d, seen));
      && (from.Some? && d == Decrease ==> to == Some(if from.value == 0 then 0 else from.value - 1))
      && (from.Some? && d == Increase ==> to == Some(if from.value == 2 then 2 else from.value + 1))
      && (from.Some? && d != Decrease && d != Increase ==> to == from)
  {
    match seen {
      case OtherTier(_) =>
      case _ =>
    }
  }

  // ---------- One tenant's advice and setting ----------

  datatype Advice = Advice(direction: Direction, current: Tier, recommended: Tier, appliedBy: Option<string>)

  datatype ApplyOutcome = AppliedTo(previous: Tier, now: Tier) | Unauthorized | NotFound | AlreadyApplied

  /** A setting that was never written reads as BALANCED. */
  datatype Desk = Desk(advices: map<Uuid, Advice>, setting: Option<Tier>)

  const EMPTY := Desk(map[], None)

  function SettingOf(d: Desk): Tier {
    if d.setting.Some? then d.setting.value else Balanced
  }

  /** `window` is the feedback that `Generate` finds in its window, `current` the tier its
      caller names, if any; one that read the setting some calls earlier is one that names
      it. `Override` is `set_tenant_sensitivity`. */
  datatype Op =
    | Generate(id: Uuid, window: seq<Entry>, current: Option<Tier>)
    | Apply(id: Uuid, caller: Caller)
    | Override(tier: Tier)

  /** The configuration of the tuner and the tenant the calls are about. */
  datatype Site = Site(tenant: Uuid, minSamples: int)

  function Drawn(c: Site, d: Desk, window: seq<Entry>, current: Option<Tier>): Advice {
    var seen := if current.Some? then current.value else SettingOf(d);
    var direction := Recommend(Analyze(window), c.minSamples);
    Advice(direction, seen, Target(direction, seen), None)
  }

  function OutcomeOf(c: Site, d: Desk, id: Uuid, caller: Caller): ApplyOutcome {
    if !IsAdmin(caller) || caller.tenant != c.tenant then Unauthorized
    else if id !in d.advices then NotFound
    else if d.advices[id].appliedBy.Some? then AlreadyApplied
    else AppliedTo(SettingOf(d), d.advices[id].recommended)
  }

  function Step(c: Site, d: Desk, op: Op): Desk {
    match op
    case Generate(id, window, current) => d.(advices := d.advices[id := Drawn(c, d, window, current)])
    case Override(tier) => d.(setting := Some(tier))
    case Apply(id, caller) =>
      match OutcomeOf(c, d, id, caller)
      case AppliedTo(_, now) =>
        assert id in d.advices;
        Desk(d.advices[id := d.advices[id].(appliedBy := Some(caller.analyst))], Some(now))
      case _ => d
  }

  function Run(c: Site, d: Desk, ops: seq<Op>): Desk
    decreases |ops|
  {
    if ops == [] then d else Run(c, Step(c, d, ops[0]), ops[1..])
  }

  /** Ids of advices are drawn at random, so none is drawn again. */
  ghost predicate NeverRedrawn(ops: seq<Op>, id: Uuid) {
    forall i :: 0 <= i < |ops| && ops[i].Generate? ==> ops[i].id != id
  }

  /** Some call of the run applies advice `id`. */
  ghost predicate AppliedWithin(c: Site, d: Desk, ops: seq<Op>, id: Uuid)
    decreases |ops|
  {
    ops != [] &&
    ((ops[0].Apply? && ops[0].id == id && OutcomeOf(c, d, id, ops[0].caller).AppliedTo?) ||
     AppliedWithin(c, Step(c, d, ops[0]), ops[1..], id))
  }

  /** An advice never changes but for the mark of its application, which comes with the one
      call that applies it and stays. */
  lemma {:induction false} AdviceIsKept(c: Site, d: Desk, ops: seq<Op>, id: Uuid)
    requires id in d.advices && NeverRedrawn(ops, id)
    ensures
      var d' := Run(c, d, ops);
      && id in d'.advices
      && d'.advices[id] == d.advices[id].(appliedBy := d'.advices[id].appliedBy)
      && (d.advices[id].appliedBy.Some? ==> d'.advices[id] == d.advices[id] && !AppliedWithin(c, d, ops, id))
      && (d.advices[id].appliedBy.None? ==> (d'.advices[id].appliedBy.Some? <==> AppliedWithin(c, d, ops, id)))
    decreases |ops|
  {
    if ops != [] {
      AdviceIsKept(c, Step(c, d, ops[0]), ops[1..], id);
    }
  }

  /** Advice drawn up at tier `seen` and applied at tier `active`, whatever its direction:
      applying does not look at it, so advice to maintain writes back the tier it saw. */
  ghost predicate MovesDownTwo(direction: Direction, seen: Tier, active: Tier) {
    && Rank(active) == Some(2)
    && match direction
       case Decrease => Rank(seen) != Some(2)
       case Increase => false
       case _ => Rank(seen) == Some(0)
  }

  ghost predicate MovesUpTwo(direction: Direction, seen: Tier, active: Tier) {
    && Rank(active) == Some(0)
    && match direction
       case Increase => Rank(seen) != Some(0)
       case Decrease => false
       case _ => Rank(seen) == Some(2)
  }

  /** By how many tiers an application moves the tenant, if both tiers are known ones. */
  function Move(outcome: ApplyOutcome): Option<int> {
    if outcome.AppliedTo? && Rank(outcome.previous).Some? && Rank(outcome.now).Some?
    then Some(Rank(outcome.now).value - Rank(outcome.previous).value)
    else None
  }

  lemma TargetMoves(direction: Direction, seen: Tier, active: Tier)
    ensures
      var move := Move(AppliedTo(active, Target(direction, seen)));
      && (move == Some(-2) <==> MovesDownTwo(direction, seen, active))
      && (move == Some(2) <==> MovesUpTwo(direction, seen, active))
      && (move.Some? ==> -2 <= move.value <= 2 && (seen == active ==> -1 <= move.value <= 1))
  {
    match seen {
      case OtherTier(_) =>
      case _ =>
    }
  }

  /** Advice is drawn up in any state and applied after any further calls. It is applied
      exactly if the caller may and no call in between has applied it. It then moves the
      tenant down two tiers exactly if the setting has meanwhile reached the top and the
      advice is to decrease from elsewhere or to keep the bottom, up two tiers
      symmetrically, and at most one tier if the setting is still the one it saw. */
  lemma {:induction false} StaleAdviceMovesTwoTiersIff(c: Site, d: Desk, draw: Op, ops: seq<Op>, caller: Caller)
    requires draw.Generate? && NeverRedrawn(ops, draw.id)
    ensures
      var d0 := Step(c, d, draw);
      var d1 := Run(c, d0, ops);
      var advice, active := Drawn(c, d, draw.window, draw.current), SettingOf(d1);
      var outcome := OutcomeOf(c, d1, draw.id, caller);
      && (outcome.AppliedTo? <==> IsAdmin(caller) && caller.tenant == c.tenant && !AppliedWithin(c, d0, ops, draw.id))
      && (outcome.AppliedTo? ==>
            && outcome == AppliedTo(active, advice.recommended) && SettingOf(Step(c, d1, Apply(draw.id, caller))) == advice.recommended
            && (Move(outcome) == Some(-2) <==> MovesDownTwo(advice.direction, advice.current, active))
            && (Move(outcome) == Some(2) <==> MovesUpTwo(advice.direction, advice.current, active))
            && (Move(outcome).Some? && advice.current == active ==> -1 <= Move(outcome).value <= 1))
  {
    var d0 := Step(c, d, draw);
    AdviceIsKept(c, d0, ops, draw.id);
    var advice := Drawn(c, d, draw.window, draw.current);
    assert d0.advices[draw.id] == advice;
    TargetMoves(advice.direction, advice.current, SettingOf(Run(c, d0, ops)));
  }

  lemma {:induction false} UniformAdvice(w: seq<Entry>, u: Correction, minSamples: int)
    requires w != [] && |w| >= minSamples && (u == FalsePositive || u == FalseNegative)
    requires forall e :: e in w ==> e.verdict == u
    ensures Recommend(Analyze(w), minSamples) == if u == FalsePositive then Decrease else Increase
  {
    CountOfUniform(w, u, FalsePositive);
    CountOfUniform(w, u, FalseNegative);
    CountOfUniform(w, u, ConfirmedClean);
    CountOfUniform(w, u, BenignAnomaly);
    CountOfUniform(w, u, ConfirmedMalicious);
    CountOfUniform(w, u, ConfirmedSuspicious);
  }

  /** The calls of the run below. */
  function TwoAdvices(up: seq<Entry>, down: seq<Entry>, i: Uuid, j: Uuid, admin: Caller): seq<Op> {
    [Generate(i, up, None), Generate(j, down, None), Apply(i, admin)]
  }

  lemma AfterTwoAdvices(c: Site, up: seq<Entry>, down: seq<Entry>, i: Uuid, j: Uuid, admin: Caller)
    requires i != j && IsAdmin(admin) && admin.tenant == c.tenant
    requires Recommend(Analyze(up), c.minSamples) == Increase && Recommend(Analyze(down), c.minSamples) == Decrease
    ensures
      var d := Run(c, EMPTY, TwoAdvices(up, down, i, j, admin));
      d.setting == Some(Aggressive) && j in d.advices && d.advices[j] == Advice(Decrease, Balanced, Permissive, None)
  {
    var first, second, third := Generate(i, up, None), Generate(j, down, None), Apply(i, admin);
    var d1 := Step(c, EMPTY, first);
    var d2 := Step(c, d1, second);
    var d3 := Step(c, d2, third);
    assert [first, second, third][1..] == [second, third] && [second, third][1..] == [third] && [third][1..] == [];
    assert Run(c, d2, [third]) == Run(c, d3, []) == d3;
    assert Run(c, d1, [second, third]) == Run(c, d2, [third]);
    assert Run(c, EMPTY, [first, second, third]) == Run(c, d1, [second, third]);
  }

  /** From a fresh tuner, for any windows of false negatives and of false positives: advice
      to increase and advice to decrease are both drawn up at BALANCED; once the first is
      applied, applying the second takes the tenant from AGGRESSIVE to PERMISSIVE. */
  lemma {:induction false} TwoAdvicesCross(c: Site, up: seq<Entry>, down: seq<Entry>, i: Uuid, j: Uuid, admin: Caller)
    requires i != j && IsAdmin(admin) && admin.tenant == c.tenant
    requires up != [] && down != [] && |up| >= c.minSamples && |down| >= c.minSamples
    requires (forall e :: e in up ==> e.verdict == FalseNegative) && (forall e :: e in down ==> e.verdict == FalsePositive)
    ensures
      var outcome := OutcomeOf(c, Run(c, EMPTY, TwoAdvices(up, down, i, j, admin)), j, admin);
      outcome == AppliedTo(Aggressive, Permissive) && Move(outcome) == Some(-2)
  {
    UniformAdvice(up, FalseNegative, c.minSamples);
    UniformAdvice(down, FalsePositive, c.minSamples);
    AfterTwoAdvices(c, up, down, i, j, admin);
  }

  /** The counters after one more verdict. */
  function Counted(t: Tally, v: Correction): Tally {
    var t' := t.(distribution := t.distribution[v := (if v in t.distribution then t.distribution[v] else 0) + 1]);
    match v
    case FalsePositive => t'.(fp := t.fp + 1)
    case FalseNegative => t'.(fn := t.fn + 1)
    case ConfirmedClean => t'.(clean := t.clean + 1)
    case ConfirmedMalicious => t'.(malicious := t.malicious + 1)
    case ConfirmedSuspicious => t'.(suspicious := t.suspicious + 1)
    case BenignAnomaly => t'.(benign := t.benign + 1)
    case NeedsEscalation => t'.(escalated := t.escalated + 1)
    case OtherText(_) => t'
  }

  const NOTHING := Tally(0, 0, 0, 0, 0, 0, 0, map[])

  /** The counting loop as a fold. */
  function Tallied(w: seq<Entry>): Tally {
    if w == [] then NOTHING else Counted(Tallied(w[..|w| - 1]), w[|w| - 1].verdict)
  }

  lemma CountOneMore(w: seq<Entry>, e: Entry, v: Correction)
    ensures CountOf(w + [e], v) == CountOf(w, v) + if e.verdict == v then 1 else 0
  {
    assert (w + [e])[..|w|] == w;
  }

  lemma CountedAddsOne(t: Tally, v: Correction)
    ensures
      var t' := Counted(t, v);
      && t'.fp == t.fp + (if v == FalsePositive then 1 else 0)
      && t'.fn == t.fn + (if v == FalseNegative then 1 else 0)
      && t'.clean == t.clean + (if v == ConfirmedClean then 1 else 0)
      && t'.malicious == t.malicious + (if v == ConfirmedMalicious then 1 else 0)
      && t'.suspicious == t.suspicious + (if v == ConfirmedSuspicious then 1 else 0)
      && t'.benign == t.benign + (if v == BenignAnomaly then 1 else 0)
      && t'.escalated == t.escalated + (if v == NeedsEscalation then 1 else 0)
      && t'.distribution == t.distribution[v := (if v in t.distribution then t.distribution[v] else 0) + 1]
  {
  }

  lemma CountsStep(w: seq<Entry>, e: Entry)
    ensures CountsOf(w + [e]) == Counted(CountsOf(w), e.verdict)
  {
    DistributionStep(w, e);
    CountOneMore(w, e, FalsePositive);
    CountOneMore(w, e, FalseNegative);
    CountOneMore(w, e, ConfirmedClean);
    CountOneMore(w, e, ConfirmedMalicious);
    CountOneMore(w, e, ConfirmedSuspicious);
    CountOneMore(w, e, BenignAnomaly);
    CountOneMore(w, e, NeedsEscalation);
    CountedAddsOne(CountsOf(w), e.verdict);
  }

  lemma {:induction false} TalliedIsCounted(w: seq<Entry>)
    ensures Tallied(w) == CountsOf(w)
    decreases |w|
  {
    if w == [] {
      assert Distribution(w) == map[];
    } else {
      var before, e := w[..|w| - 1], w[|w| - 1];
      TalliedIsCounted(before);
      CountsStep(before, e);
      assert w == before + [e];
    }
  }

  class AdaptiveSensitivityTuner {
    const minSamples: int
    var advices: map<Uuid, map<Uuid, Advice>>
    var active: map<Uuid, Tier>

    constructor (minSamples: int)
      ensures this.minSamples == minSamples && forall t: Uuid :: View(t) == EMPTY
    {
      this.minSamples := minSamples;
      advices, active := map[], map[];
    }

    function View(tenant: Uuid): Desk
      reads this
    {
      Desk(if tenant in advices then advices[tenant] else map[], Lookup(active, tenant))
    }

    function SiteOf(tenant: Uuid): Site {
      Site(tenant, minSamples)
    }

    method CalculateWindowAnalytics(entries: seq<Entry>, tenant: Uuid, start: real, end: real) returns (a: Analytics)
      ensures a == Analyze(Window(entries, tenant, start, end))
    {
      var w := Window(entries, tenant, start, end);
      var counts := NOTHING;
      for i := 0 to |w|
        invariant counts == Tallied(w[..i])
      {
        assert w[..i + 1][..i] == w[..i];
        counts := Counted(counts, w[i].verdict);
      }
      assert w[..|w|] == w;
      TalliedIsCounted(w);
      a := Rated(|w|, counts);
    }

    method SetTenantSensitivity(tenant: Uuid, tier: Tier)
      modifies `active
      ensures View(tenant) == Step(SiteOf(tenant), old(View(tenant)), Override(tier))
      ensures forall t: Uuid :: t != tenant ==> View(t) == old(View(t))
    {
      active := active[tenant := tier];
    }

    method GenerateRecommendation(tenant: Uuid, id: Uuid, entries: seq<Entry>, current: Option<Tier>, start: real, end: real)
      returns (advice: Advice)
      modifies `advices
      ensures advice == Drawn(SiteOf(tenant), old(View(tenant)), Window(entries, tenant, start, end), current)
      ensures CalledFor(advice.direction, entries, tenant, start, end, minSamples)
      ensures advice.current == if current.Some? then current.value else if tenant in active then active[tenant] else Balanced
      ensures OneStep(advice.direction, advice.current, advice.recommended) && advice.appliedBy == None
      ensures tenant in advices && id in advices[tenant] && advices[tenant][id] == advice
      ensures View(tenant) == Step(SiteOf(tenant), old(View(tenant)), Generate(id, Window(entries, tenant, start, end), current))
      ensures forall t: Uuid :: t != tenant ==> View(t) == old(View(t))
    {
      var seen := if current.Some? then current.value else if tenant in active then active[tenant] else Balanced;
      var a := CalculateWindowAnalytics(entries, tenant, start, end);
      var d := Recommend(a, minSamples);
      DirectionIsCalledFor(entries, tenant, start, end, minSamples);
      TargetIsOneStep(d, seen);
      advice := Advice(d, seen, Target(d, seen), None);
      var mine := if tenant in advices then advices[tenant] else map[];
      advices := advices[tenant := mine[id := advice]];
    }

    /** Only an administrator of the tenant applies advice; other tenants are untouched. */
    method ApplyRecommendation(tenant: Uuid, id: Uuid, caller: Caller) returns (outcome: ApplyOutcome)
      modifies this
      ensures outcome == OutcomeOf(SiteOf(tenant), old(View(tenant)), id, caller)
      ensures outcome == Unauthorized <==>
              Upper(caller.role) !in ["ADMIN", "SUPER_ADMIN", "LEAD_SOC_ADMIN"] || caller.tenant != tenant
      ensures View(tenant) == Step(SiteOf(tenant), old(View(tenant)), Apply(id, caller))
      ensures forall t: Uuid :: t != tenant ==> View(t) == old(View(t))
    {
      if !IsAdmin(caller) || caller.tenant != tenant {
        return Unauthorized;
      }
      var mine := if tenant in advices then advices[tenant] else map[];
      if id !in mine {
        return NotFound;
      }
      var advice := mine[id];
      if advice.appliedBy.Some? {
        return AlreadyApplied;
      }
      outcome := AppliedTo(if tenant in active then active[tenant] else Balanced, advice.recommended);
      advices := advices[tenant := mine[id := advice.(appliedBy := Some(caller.analyst))]];
      SetTenantSensitivity(tenant, advice.recommended);
    }
  }
}
