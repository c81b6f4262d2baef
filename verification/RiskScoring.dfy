/** Weighted risk scoring: each factor counts once, by its first item above INFO. Points and
    scores are in hundredths, the precision to which the code rounds. */
module RiskScoring {
  import opened Common

  datatype Severity = Info | LowSeverity | MediumSeverity | HighSeverity | CriticalSeverity

  datatype Evidence = Evidence(id: string, category: string, severity: Severity, description: string)

  datatype Factor =
    | Authentication | Impersonation | SocialEngineering | ThreatIntelligence | Campaign | Historical
    | Attachment | Sender | Ocr | Qr | Url | General

  function FactorOf(item: Evidence): Factor {
    var c := Lower(item.category);
    if Contains(c, "spf") || Contains(c, "dkim") || Contains(c, "dmarc") || Contains(c, "auth") then Authentication
    else if Contains(c, "impersonation") || Contains(c, "brand") then Impersonation
    else if Contains(c, "social_engineering") || Contains(c, "behavior") then SocialEngineering
    else if Contains(c, "threat_intelligence") then ThreatIntelligence
    else if Contains(c, "campaign") then Campaign
    else if Contains(c, "historical") then Historical
    else if Contains(c, "attachment") then Attachment
    else if Contains(c, "sender") || Contains(c, "domain") then Sender
    else if Contains(c, "ocr") then Ocr
    else if Contains(c, "qr") then Qr
    else if Contains(c, "url") then Url
    else General
  }

  /** The category text has one of the words of factor `f` in it. */
  predicate Mentions(c: string, f: Factor) {
    match f
    case Authentication => Contains(c, "spf") || Contains(c, "dkim") || Contains(c, "dmarc") || Contains(c, "auth")
    case Impersonation => Contains(c, "impersonation") || Contains(c, "brand")
    case SocialEngineering => Contains(c, "social_engineering") || Contains(c, "behavior")
    case ThreatIntelligence => Contains(c, "threat_intelligence")
    case Campaign => Contains(c, "campaign")
    case Historical => Contains(c, "historical")
    case Attachment => Contains(c, "attachment")
    case Sender => Contains(c, "sender") || Contains(c, "domain")
    case Ocr => Contains(c, "ocr")
    case Qr => Contains(c, "qr")
    case Url => Contains(c, "url")
    case General => true
  }

  /** The order in which the factors are tried. */
  function Turn(f: Factor): nat {
    match f
    case Authentication => 0
    case Impersonation => 1
    case SocialEngineering => 2
    case ThreatIntelligence => 3
    case Campaign => 4
    case Historical => 5
    case Attachment => 6
    case Sender => 7
    case Ocr => 8
    case Qr => 9
    case Url => 10
    case General => 11
  }

  /** An item belongs to the factor tried first among those its category mentions, in any case. */
  lemma {:induction false} FactorIsFirstMentioned(item: Evidence, f: Factor)
    ensures
      var c := Lower(item.category);
      && Mentions(c, FactorOf(item))
      && (Mentions(c, f) ==> Turn(FactorOf(item)) <= Turn(f))
      && (Turn(f) == Turn(FactorOf(item)) ==> f == FactorOf(item))
  {
  }

  function Multiplier(s: Severity): real {
    match s
    case Info => 0.0
    case LowSeverity => 0.25
    case MediumSeverity => 0.5
    case HighSeverity => 0.8
    case CriticalSeverity => 1.0
  }

  function DefaultWeight(f: Factor): real {
    match f
    case Authentication => 20.0
    case Url => 18.0
    case Impersonation => 18.0
    case SocialEngineering => 18.0
    case Attachment => 15.0
    case ThreatIntelligence => 15.0
    case Campaign => 12.0
    case Sender => 10.0
    case Ocr => 8.0
    case Qr => 8.0
    case Historical => 8.0
    case General => 5.0
  }

  /** The engine's weights: defaults overridden by the caller's, none negative. */
  type Weights = Factor -> real

  ghost predicate NonNegative(w: Weights) {
    forall f :: w(f) >= 0.0
  }

  /** The key of a factor in a weight table. */
  function NameOf(f: Factor): string {
    match f
    case Authentication => "authentication"
    case Url => "url"
    case Impersonation => "impersonation"
    case SocialEngineering => "social_engineering"
    case Attachment => "attachment"
    case ThreatIntelligence => "threat_intelligence"
    case Campaign => "campaign"
    case Sender => "sender"
    case Ocr => "ocr"
    case Qr => "qr"
    case Historical => "historical"
    case General => "general"
  }

  /** Custom weights may name anything; names that are no factor only matter if negative.
      None is the ValueError for a negative weight. */
  function EngineWeights(custom: map<string, real>): (r: Option<Weights>)
    ensures r.Some? <==> forall name :: name in custom ==> custom[name] >= 0.0
    ensures r.Some? ==> NonNegative(r.value)
    ensures r.Some? ==> forall f :: r.value(f) == if NameOf(f) in custom then custom[NameOf(f)] else DefaultWeight(f)
  {
    if forall name | name in custom :: custom[name] >= 0.0 then
      Some((f: Factor) => if NameOf(f) in custom then custom[NameOf(f)] else DefaultWeight(f))
    else None
  }

  /** The weights in figures: those of an engine without custom ones, and what a custom
      table puts in their place, by name. */
  lemma {:induction false} WeightsAre(custom: map<string, real>)
    requires EngineWeights(custom).Some?
    ensures
      var w := EngineWeights(custom).value;
      && w(Authentication) == (if "authentication" in custom then custom["authentication"] else 20.0)
      && w(Url) == (if "url" in custom then custom["url"] else 18.0)
      && w(Impersonation) == (if "impersonation" in custom then custom["impersonation"] else 18.0)
      && w(SocialEngineering) == (if "social_engineering" in custom then custom["social_engineering"] else 18.0)
      && w(Attachment) == (if "attachment" in custom then custom["attachment"] else 15.0)
      && w(ThreatIntelligence) == (if "threat_intelligence" in custom then custom["threat_intelligence"] else 15.0)
      && w(Campaign) == (if "campaign" in custom then custom["campaign"] else 12.0)
      && w(Sender) == (if "sender" in custom then custom["sender"] else 10.0)
      && w(Ocr) == (if "ocr" in custom then custom["ocr"] else 8.0)
      && w(Qr) == (if "qr" in custom then custom["qr"] else 8.0)
      && w(Historical) == (if "historical" in custom then custom["historical"] else 8.0)
      && w(General) == (if "general" in custom then custom["general"] else 5.0)
  {
  }

  /** round(x, 2) in hundredths: to nearest, ties to even. */
  function Hundredths(x: real): int {
    var y := x * 100.0;
    var n := y.Floor;
    var rest := y - n as real;
    if rest < 0.5 || (rest == 0.5 && n % 2 == 0) then n else n + 1
  }

  /** The nearest number of hundredths; of two equally near ones the even one. */
  lemma {:induction false} HundredthsAreNearest(x: real)
    ensures -0.5 <= x * 100.0 - Hundredths(x) as real <= 0.5
    ensures x * 100.0 - Hundredths(x) as real == 0.5 || x * 100.0 - Hundredths(x) as real == -0.5 ==> Hundredths(x) % 2 == 0
  {
    var y := x * 100.0;
    assert y.Floor as real <= y < y.Floor as real + 1.0;
  }

  lemma HundredthsMonotone(x: real, y: real)
    requires x <= y
    ensures Hundredths(x) <= Hundredths(y)
  {
  }

  /** Rounding a sum of hundredths again changes nothing. */
  lemma {:induction false} HundredthsAreExact(n: int)
    ensures Hundredths(n as real / 100.0) == n
  {
    assert (n as real / 100.0) * 100.0 == n as real;
  }

  datatype Contribution = Contribution(factor: Factor, points: int, weight: real, evidenceId: string, reason: string)

  /** A weight times the multiplier, case by case. */
  function ShareOfWeight(weight: real, s: Severity): real {
    match s
    case Info => 0.0
    case LowSeverity => 0.25 * weight
    case MediumSeverity => 0.5 * weight
    case HighSeverity => 0.8 * weight
    case CriticalSeverity => weight
  }

  lemma {:induction false} ShareIsProduct(weight: real, s: Severity)
    ensures ShareOfWeight(weight, s) == weight * Multiplier(s)
  {
    match s {
      case Info =>
      case LowSeverity =>
      case MediumSeverity =>
      case HighSeverity =>
      case CriticalSeverity =>
    }
  }

  /** The points of an item of the given severity. */
  function Worth(weight: real, s: Severity): int {
    Hundredths(ShareOfWeight(weight, s))
  }

  /** Worth grows with severity. */
  lemma WorthGrows(weight: real, s: Severity, t: Severity)
    requires weight >= 0.0 && SeverityRank(s) <= SeverityRank(t)
    ensures 0 <= Worth(weight, s) <= Worth(weight, t)
  {
    HundredthsMonotone(0.0, ShareOfWeight(weight, s));
    HundredthsMonotone(ShareOfWeight(weight, s), ShareOfWeight(weight, t));
    assert Hundredths(0.0) == 0;
  }

  function SeverityRank(s: Severity): nat {
    match s case Info => 0 case LowSeverity => 1 case MediumSeverity => 2 case HighSeverity => 3 case CriticalSeverity => 4
  }

  function Contribute(w: Weights, f: Factor, item: Evidence): Contribution {
    Contribution(f, Worth(w(f), item.severity), w(f), item.id, item.description)
  }

  /** Contributions of `evidence` for factors outside `seen`; `factor` classifies an item. */
  function Contributions(w: Weights, factor: Evidence -> Factor, evidence: seq<Evidence>, seen: set<Factor>): seq<Contribution>
    decreases |evidence|
  {
    if evidence == [] then []
    else
      var item, f := evidence[0], factor(evidence[0]);
      if f in seen || Multiplier(item.severity) <= 0.0 then Contributions(w, factor, evidence[1..], seen)
      else [Contribute(w, f, item)] + Contributions(w, factor, evidence[1..], seen + {f})
  }

  function Breakdown(w: Weights, factor: Evidence -> Factor, evidence: seq<Evidence>): seq<Contribution> {
    Contributions(w, factor, evidence, {})
  }

  function Points(cs: seq<Contribution>): int {
    if cs == [] then 0 else Points(cs[..|cs| - 1]) + cs[|cs| - 1].points
  }

  datatype Level = Low | Medium | High | Critical

  function LevelOf(total: int): Level {
    if total >= 7500 then Critical else if total >= 5000 then High else if total >= 2500 then Medium else Low
  }

  function LevelRank(l: Level): nat {
    match l case Low => 0 case Medium => 1 case High => 2 case Critical => 3
  }

  datatype RiskScore = RiskScore(score: int, confidence: int, level: Level, reasons: seq<string>, breakdown: seq<Contribution>)

  function Reasons(cs: seq<Contribution>): seq<string> {
    seq(|cs|, i requires 0 <= i < |cs| => cs[i].reason)
  }

  function CapScore(sum: int): int {
    if sum < 10000 then sum else 10000
  }

  function ConfidenceOf(n: nat): int {
    var c := 50 + 10 * (if n < 5 then n else 5);
    if c < 99 then c else 99
  }

  function ScoreOf(cs: seq<Contribution>): RiskScore {
    var total := CapScore(Points(cs));
    RiskScore(total, ConfidenceOf(|cs|), LevelOf(total), Reasons(cs), cs)
  }

  // ---------- The first item of each factor ----------

  /** The first item above INFO of factor `f`. */
  function FirstOf(factor: Evidence -> Factor, evidence: seq<Evidence>, f: Factor): Option<Evidence>
    decreases |evidence|
  {
    if evidence == [] then None
    else if factor(evidence[0]) == f && Multiplier(evidence[0].severity) > 0.0 then Some(evidence[0])
    else FirstOf(factor, evidence[1..], f)
  }

  /** The contribution list has one entry for each factor that has a first item, and that
      entry is made from it. */
  lemma {:induction false} ContributionsAreFirsts(w: Weights, factor: Evidence -> Factor, evidence: seq<Evidence>, seen: set<Factor>)
    ensures
      var cs := Contributions(w, factor, evidence, seen);
      forall c :: c in cs <==>
        c.factor !in seen && FirstOf(factor, evidence, c.factor).Some? && c == Contribute(w, c.factor, FirstOf(factor, evidence, c.factor).value)
    ensures
      var cs := Contributions(w, factor, evidence, seen);
      forall i, j :: 0 <= i < j < |cs| ==> cs[i].factor != cs[j].factor
    decreases |evidence|
  {
    if evidence != [] {
      var item, f, rest := evidence[0], factor(evidence[0]), evidence[1..];
      if f in seen || Multiplier(item.severity) <= 0.0 {
        ContributionsAreFirsts(w, factor, rest, seen);
      } else {
        ContributionsAreFirsts(w, factor, rest, seen + {f});
        var tail := Contributions(w, factor, rest, seen + {f});
        assert Contributions(w, factor, evidence, seen) == [Contribute(w, f, item)] + tail;
        forall i | 0 <= i < |tail|
          ensures tail[i].factor != f
        {
          assert tail[i] in tail;
        }
      }
    }
  }

  ghost predicate SameFirsts(factor: Evidence -> Factor, e1: seq<Evidence>, e2: seq<Evidence>) {
    forall f :: FirstOf(factor, e1, f) == FirstOf(factor, e2, f)
  }

  lemma DistinctMultiset(cs: seq<Contribution>, c: Contribution)
    requires forall i, j :: 0 <= i < j < |cs| ==> cs[i].factor != cs[j].factor
    ensures multiset(cs)[c] == if c in cs then 1 else 0
    decreases |cs|
  {
    if cs != [] {
      var before, last := cs[..|cs| - 1], cs[|cs| - 1];
      DistinctMultiset(before, c);
      assert cs == before + [last];
      if last == c {
        assert c !in before;
      }
    }
  }

  lemma {:induction false} PointsWithout(cs: seq<Contribution>, i: nat)
    requires i < |cs|
    ensures Points(cs) == Points(cs[..i] + cs[i + 1..]) + cs[i].points
    decreases |cs|
  {
    var n := |cs| - 1;
    var rest := cs[..i] + cs[i + 1..];
    if i < n {
      PointsWithout(cs[..n], i);
      assert rest[..|rest| - 1] == cs[..n][..i] + cs[..n][i + 1..];
    } else {
      assert rest == cs[..n];
    }
  }

  lemma {:induction false} PointsOrderFree(cs: seq<Contribution>, ds: seq<Contribution>)
    requires multiset(cs) == multiset(ds)
    ensures Points(cs) == Points(ds) && |cs| == |ds|
    decreases |cs|
  {
    assert |cs| == |multiset(cs)| == |multiset(ds)| == |ds|;
    if cs != [] {
      var i := MatchLast(cs, ds);
      PointsOrderFree(cs[..|cs| - 1], ds[..i] + ds[i + 1..]);
      PointsWithout(ds, i);
    }
  }

  /** The score depends on the evidence only through the first item above INFO of each
      factor: two lists that agree there have the same contributions up to order, and the
      same score, confidence and level. */
  lemma {:induction false} OnlyFirstsMatter(w: Weights, factor: Evidence -> Factor, e1: seq<Evidence>, e2: seq<Evidence>)
    requires SameFirsts(factor, e1, e2)
    ensures
      var s1, s2 := ScoreOf(Breakdown(w, factor, e1)), ScoreOf(Breakdown(w, factor, e2));
      && multiset(s1.breakdown) == multiset(s2.breakdown)
      && s1.score == s2.score && s1.confidence == s2.confidence && s1.level == s2.level
  {
    var c1, c2 := Breakdown(w, factor, e1), Breakdown(w, factor, e2);
    ContributionsAreFirsts(w, factor, e1, {});
    ContributionsAreFirsts(w, factor, e2, {});
    forall c
      ensures multiset(c1)[c] == multiset(c2)[c]
    {
      DistinctMultiset(c1, c);
      DistinctMultiset(c2, c);
      assert FirstOf(factor, e1, c.factor) == FirstOf(factor, e2, c.factor);
    }
    PointsOrderFree(c1, c2);
  }

  lemma {:induction false} FirstOfConcat(factor: Evidence -> Factor, a: seq<Evidence>, b: seq<Evidence>, f: Factor)
    ensures FirstOf(factor, a + b, f) == if FirstOf(factor, a, f).Some? then FirstOf(factor, a, f) else FirstOf(factor, b, f)
    decreases |a|
  {
    if a == [] {
      assert a + b == b;
    } else {
      assert (a + b)[0] == a[0] && (a + b)[1..] == a[1..] + b;
      FirstOfConcat(factor, a[1..], b, f);
    }
  }

  /** Neighbouring items of different factors can be swapped. */
  lemma {:induction false} SwapIsHarmless(w: Weights, factor: Evidence -> Factor, a: seq<Evidence>, x: Evidence, y: Evidence, b: seq<Evidence>)
    requires factor(x) != factor(y)
    ensures
      var s1, s2 := ScoreOf(Breakdown(w, factor, a + [x, y] + b)), ScoreOf(Breakdown(w, factor, a + [y, x] + b));
      s1.score == s2.score && s1.confidence == s2.confidence && s1.level == s2.level
  {
    forall f
      ensures FirstOf(factor, a + [x, y] + b, f) == FirstOf(factor, a + [y, x] + b, f)
    {
      FirstOfConcat(factor, a + [x, y], b, f);
      FirstOfConcat(factor, a + [y, x], b, f);
      FirstOfConcat(factor, a, [x, y], f);
      FirstOfConcat(factor, a, [y, x], f);
      assert [x, y][1..] == [y] && [y, x][1..] == [x] && [x][1..] == [] && [y][1..] == [];
      assert FirstOf(factor, [x], f) == if factor(x) == f && Multiplier(x.severity) > 0.0 then Some(x) else None;
      assert FirstOf(factor, [y], f) == if factor(y) == f && Multiplier(y.severity) > 0.0 then Some(y) else None;
    }
    OnlyFirstsMatter(w, factor, a + [x, y] + b, a + [y, x] + b);
  }

  /** INFO items leave the whole result as it is. */
  lemma {:induction false} InfoIsInert(w: Weights, factor: Evidence -> Factor, a: seq<Evidence>, info: Evidence, b: seq<Evidence>, seen: set<Factor>)
    requires info.severity.Info?
    ensures Contributions(w, factor, a + [info] + b, seen) == Contributions(w, factor, a + b, seen)
    decreases |a|
  {
    if a == [] {
      assert (a + [info] + b)[0] == info && (a + [info] + b)[1..] == b && a + b == b;
    } else {
      var f := factor(a[0]);
      assert (a + [info] + b)[0] == a[0] && (a + [info] + b)[1..] == a[1..] + [info] + b;
      assert (a + b)[0] == a[0] && (a + b)[1..] == a[1..] + b;
      InfoIsInert(w, factor, a[1..], info, b, if f in seen || Multiplier(a[0].severity) <= 0.0 then seen else seen + {f});
    }
  }

  // ---------- Monotonicity ----------

  lemma {:induction false} AppendingExtends(w: Weights, factor: Evidence -> Factor, e: seq<Evidence>, more: seq<Evidence>, seen: set<Factor>)
    ensures Contributions(w, factor, e, seen) <= Contributions(w, factor, e + more, seen)
    decreases |e|
  {
    if e != [] {
      var f := factor(e[0]);
      assert (e + more)[0] == e[0] && (e + more)[1..] == e[1..] + more;
      AppendingExtends(w, factor, e[1..], more, if f in seen || Multiplier(e[0].severity) <= 0.0 then seen else seen + {f});
    }
  }

  lemma {:induction false} PointsGrow(cs: seq<Contribution>, more: seq<Contribution>)
    requires cs <= more && forall c :: c in more ==> c.points >= 0
    ensures 0 <= Points(cs) <= Points(more)
    decreases |more|
  {
    if more != [] {
      var before := more[..|more| - 1];
      assert more[|more| - 1] in more;
      if |cs| == |more| {
        PointsGrow(cs[..|cs| - 1], before);
      } else {
        PointsGrow(cs, before);
      }
    }
  }

  lemma ContributionsAreNonNegative(w: Weights, factor: Evidence -> Factor, evidence: seq<Evidence>, c: Contribution)
    requires NonNegative(w) && c in Breakdown(w, factor, evidence)
    ensures c.points >= 0
  {
    ContributionsAreFirsts(w, factor, evidence, {});
    var item := FirstOf(factor, evidence, c.factor).value;
    WorthGrows(w(c.factor), Info, item.severity);
  }

  /** More evidence only extends the breakdown and never lowers score, confidence or level;
      the score stays between 0 and 100 and the breakdown names each factor once. */
  lemma {:induction false} MoreEvidenceNeverLowersScore(w: Weights, factor: Evidence -> Factor, e: seq<Evidence>, more: seq<Evidence>)
    requires NonNegative(w)
    ensures
      var s, s' := ScoreOf(Breakdown(w, factor, e)), ScoreOf(Breakdown(w, factor, e + more));
      && s.breakdown <= s'.breakdown
      && 0 <= s.score <= s'.score <= 10000
      && s.confidence <= s'.confidence
      && LevelRank(s.level) <= LevelRank(s'.level)
      && forall i, j :: 0 <= i < j < |s'.breakdown| ==> s'.breakdown[i].factor != s'.breakdown[j].factor
  {
    var cs, ds := Breakdown(w, factor, e), Breakdown(w, factor, e + more);
    AppendingExtends(w, factor, e, more, {});
    forall c | c in ds
      ensures c.points >= 0
    {
      ContributionsAreNonNegative(w, factor, e + more, c);
    }
    PointsGrow(cs, ds);
    ContributionsAreFirsts(w, factor, e + more, {});
  }

  // ---------- What counts, item by item ----------

  /** The points of an item: none, a quarter, a half, four fifths or all of the weight. */
  predicate Earns(points: int, weight: real, s: Severity) {
    match s
    case Info => points == 0
    case LowSeverity => points == Hundredths(0.25 * weight)
    case MediumSeverity => points == Hundredths(0.5 * weight)
    case HighSeverity => points == Hundredths(0.8 * weight)
    case CriticalSeverity => points == Hundredths(weight)
  }

  /** Item `k` is the first above INFO of its factor. */
  ghost predicate IsFirst(factor: Evidence -> Factor, evidence: seq<Evidence>, k: int) {
    && 0 <= k < |evidence| && evidence[k].severity != Info
    && forall j :: 0 <= j < k ==> evidence[j].severity == Info || factor(evidence[j]) != factor(evidence[k])
  }

  /** `c` is made from `item`. */
  predicate MadeFrom(w: Weights, factor: Evidence -> Factor, c: Contribution, item: Evidence) {
    && c.factor == factor(item) && c.weight == w(factor(item)) && Earns(c.points, w(factor(item)), item.severity)
    && c.evidenceId == item.id && c.reason == item.description
  }

  /** `cs` is made from exactly the first items of the factors, in their order; `idx` says
      where they are. */
  ghost predicate MadeFromFirsts(w: Weights, factor: Evidence -> Factor, evidence: seq<Evidence>, cs: seq<Contribution>, idx: seq<nat>) {
    && |idx| == |cs| && (forall i, j :: 0 <= i < j < |idx| ==> idx[i] < idx[j])
    && (forall i :: 0 <= i < |idx| ==> IsFirst(factor, evidence, idx[i]) && MadeFrom(w, factor, cs[i], evidence[idx[i]]))
    && (forall k :: IsFirst(factor, evidence, k) ==> k in idx)
  }

  lemma ContributeMakes(w: Weights, factor: Evidence -> Factor, item: Evidence)
    requires item.severity != Info
    ensures MadeFrom(w, factor, Contribute(w, factor(item), item), item)
  {
  }

  lemma FirstsOneMore(w: Weights, factor: Evidence -> Factor, before: seq<Evidence>, item: Evidence, cs: seq<Contribution>, idx: seq<nat>)
    requires MadeFromFirsts(w, factor, before, cs, idx)
    ensures
      var c, all := Contribute(w, factor(item), item), before + [item];
      if IsFirst(factor, all, |before|) then MadeFromFirsts(w, factor, all, cs + [c], idx + [|before|])
      else MadeFromFirsts(w, factor, all, cs, idx)
  {
    var all, idx' := before + [item], idx + [|before|];
    assert forall j :: 0 <= j < |before| ==> all[j] == before[j];
    forall k
      ensures k < |before| ==> (IsFirst(factor, all, k) <==> IsFirst(factor, before, k))
      ensures k > |before| ==> !IsFirst(factor, all, k)
    {
    }
    assert idx'[|idx|] == |before|;
    if IsFirst(factor, all, |before|) {
      ContributeMakes(w, factor, item);
      assert forall k :: k in idx ==> k in idx';
    }
  }

  /** No item of `e` counts for factor `f`. */
  ghost predicate Unused(factor: Evidence -> Factor, e: seq<Evidence>, f: Factor) {
    forall j :: 0 <= j < |e| ==> e[j].severity == Info || factor(e[j]) != f
  }

  lemma UnusedCons(factor: Evidence -> Factor, e: seq<Evidence>, f: Factor)
    requires e != []
    ensures Unused(factor, e, f) <==> (e[0].severity == Info || factor(e[0]) != f) && Unused(factor, e[1..], f)
  {
    assert forall j :: 0 < j < |e| ==> e[j] == e[1..][j - 1];
    assert forall j :: 0 <= j < |e[1..]| ==> e[1..][j] == e[j + 1];
  }

  lemma {:induction false} LastContributes(w: Weights, factor: Evidence -> Factor, e: seq<Evidence>, item: Evidence, seen: set<Factor>)
    ensures
      var f := factor(item);
      Contributions(w, factor, e + [item], seen) ==
      Contributions(w, factor, e, seen) +
      if item.severity != Info && f !in seen && Unused(factor, e, f) then [Contribute(w, f, item)] else []
    decreases |e|
  {
    if e == [] {
      var one := [item];
      assert e + one == one && one[1..] == [] && one[0] == item;
    } else {
      var g := factor(e[0]);
      var seen' := if g in seen || Multiplier(e[0].severity) <= 0.0 then seen else seen + {g};
      assert (e + [item])[0] == e[0] && (e + [item])[1..] == e[1..] + [item];
      UnusedCons(factor, e, factor(item));
      LastContributes(w, factor, e[1..], item, seen');
    }
  }

  lemma {:induction false} BreakdownIsOfFirsts(w: Weights, factor: Evidence -> Factor, evidence: seq<Evidence>) returns (idx: seq<nat>)
    ensures MadeFromFirsts(w, factor, evidence, Breakdown(w, factor, evidence), idx)
    decreases |evidence|
  {
    idx := [];
    if evidence != [] {
      var before, item := evidence[..|evidence| - 1], evidence[|evidence| - 1];
      idx := BreakdownIsOfFirsts(w, factor, before);
      var cs := Breakdown(w, factor, before);
      assert evidence == before + [item] && cs + [] == cs;
      LastContributes(w, factor, before, item, {});
      LastIsFirstIff(factor, before, item);
      FirstsOneMore(w, factor, before, item, cs, idx);
      if IsFirst(factor, evidence, |before|) {
        idx := idx + [|before|];
      }
    }
  }

  lemma LastIsFirstIff(factor: Evidence -> Factor, before: seq<Evidence>, item: Evidence)
    ensures IsFirst(factor, before + [item], |before|) <==> item.severity != Info && Unused(factor, before, factor(item))
  {
    var all := before + [item];
    assert forall j :: 0 <= j < |before| ==> all[j] == before[j];
    assert all[|before|] == item;
  }

  // ---------- Severity ----------

  function PointsFor(w: Weights, f: Factor, first: Option<Evidence>): int {
    if first.None? then 0 else Worth(w(f), first.value.severity)
  }

  /** What factor `f` adds to the sum. */
  function ShareOf(w: Weights, factor: Evidence -> Factor, e: seq<Evidence>, seen: set<Factor>, f: Factor): int {
    if f in seen then 0 else PointsFor(w, f, FirstOf(factor, e, f))
  }

  function AllShares(w: Weights, factor: Evidence -> Factor, e: seq<Evidence>, seen: set<Factor>): int {
    ShareOf(w, factor, e, seen, Authentication) + ShareOf(w, factor, e, seen, Impersonation) +
    ShareOf(w, factor, e, seen, SocialEngineering) + ShareOf(w, factor, e, seen, ThreatIntelligence) +
    ShareOf(w, factor, e, seen, Campaign) + ShareOf(w, factor, e, seen, Historical) +
    ShareOf(w, factor, e, seen, Attachment) + ShareOf(w, factor, e, seen, Sender) +
    ShareOf(w, factor, e, seen, Ocr) + ShareOf(w, factor, e, seen, Qr) +
    ShareOf(w, factor, e, seen, Url) + ShareOf(w, factor, e, seen, General)
  }

  lemma {:induction false} PointsCons(c: Contribution, cs: seq<Contribution>)
    ensures Points([c] + cs) == c.points + Points(cs)
    decreases |cs|
  {
    if cs == [] {
      assert [c] + cs == [c] && [c][..0] == [];
    } else {
      var n := |cs| - 1;
      PointsCons(c, cs[..n]);
      assert ([c] + cs)[..n + 1] == [c] + cs[..n];
    }
  }

  /** If two lists differ in the share of one factor only, so do their sums. */
  lemma SharesDiffer(w: Weights, factor: Evidence -> Factor, e1: seq<Evidence>, seen1: set<Factor>,
                     e2: seq<Evidence>, seen2: set<Factor>, f: Factor)
    requires forall g :: g != f ==> ShareOf(w, factor, e1, seen1, g) == ShareOf(w, factor, e2, seen2, g)
    ensures AllShares(w, factor, e1, seen1) - AllShares(w, factor, e2, seen2) ==
            ShareOf(w, factor, e1, seen1, f) - ShareOf(w, factor, e2, seen2, f)
  {
    match f {
      case Authentication =>
      case Impersonation =>
      case SocialEngineering =>
      case ThreatIntelligence =>
      case Campaign =>
      case Historical =>
      case Attachment =>
      case Sender =>
      case Ocr =>
      case Qr =>
      case Url =>
      case General =>
    }
  }

  lemma SharesOfRest(w: Weights, factor: Evidence -> Factor, e: seq<Evidence>, seen: set<Factor>, g: Factor)
    requires e != []
    ensures
      var f, counts := factor(e[0]), factor(e[0]) !in seen && Multiplier(e[0].severity) > 0.0;
      ShareOf(w, factor, e, seen, g) ==
      if counts && g == f then Worth(w(f), e[0].severity) + ShareOf(w, factor, e[1..], seen + {f}, g)
      else ShareOf(w, factor, e[1..], if counts then seen + {f} else seen, g)
  {
  }

  lemma {:induction false} PointsAreShares(w: Weights, factor: Evidence -> Factor, e: seq<Evidence>, seen: set<Factor>)
    ensures Points(Contributions(w, factor, e, seen)) == AllShares(w, factor, e, seen)
    decreases |e|
  {
    if e == [] {
      NoShares(w, factor, seen);
    } else {
      var item, f, rest := e[0], factor(e[0]), e[1..];
      var counts := f !in seen && Multiplier(item.severity) > 0.0;
      var seen' := if counts then seen + {f} else seen;
      PointsAreShares(w, factor, rest, seen');
      forall g
        ensures g != f ==> ShareOf(w, factor, e, seen, g) == ShareOf(w, factor, rest, seen', g)
      {
        SharesOfRest(w, factor, e, seen, g);
      }
      SharesDiffer(w, factor, e, seen, rest, seen', f);
      SharesOfRest(w, factor, e, seen, f);
      if counts {
        PointsCons(Contribute(w, f, item), Contributions(w, factor, rest, seen'));
      }
    }
  }

  lemma NoShares(w: Weights, factor: Evidence -> Factor, seen: set<Factor>)
    ensures AllShares(w, factor, [], seen) == 0
  {
  }

  /** How an item is classified does not depend on its severity. */
  ghost predicate IgnoresSeverity(factor: Evidence -> Factor) {
    forall item: Evidence, s :: factor(item.(severity := s)) == factor(item)
  }

  function Raised(e: seq<Evidence>, i: nat, s: Severity): seq<Evidence>
    requires i < |e|
  {
    e[i := e[i].(severity := s)]
  }

  /** No item before `i` counts for its factor. */
  ghost predicate NoneBefore(factor: Evidence -> Factor, e: seq<Evidence>, i: nat)
    requires i < |e|
  {
    forall j :: 0 <= j < i ==> e[j].severity == Info || factor(e[j]) != factor(e[i])
  }

  lemma NoneBeforeCons(factor: Evidence -> Factor, e: seq<Evidence>, i: nat)
    requires 0 < i < |e|
    ensures NoneBefore(factor, e, i) <==> (e[0].severity == Info || factor(e[0]) != factor(e[i])) && NoneBefore(factor, e[1..], i - 1)
  {
    assert forall j :: 0 < j < i ==> e[j] == e[1..][j - 1];
    assert forall j :: 0 <= j < i - 1 ==> e[1..][j] == e[j + 1];
  }

  lemma RaisedSplit(e: seq<Evidence>, i: nat, s: Severity)
    requires i < |e|
    ensures Raised(e, i, s)[0] == (if i == 0 then e[0].(severity := s) else e[0])
    ensures Raised(e, i, s)[1..] == if i == 0 then e[1..] else Raised(e[1..], i - 1, s)
  {
  }

  /** Raising an item leaves the first items of the other factors as they are, and that of its
      own factor at least as severe if it was above INFO. */
  lemma {:induction false} FirstOfRaised(factor: Evidence -> Factor, e: seq<Evidence>, i: nat, s: Severity, f: Factor)
    requires i < |e| && IgnoresSeverity(factor) && SeverityRank(s) >= SeverityRank(e[i].severity)
    ensures
      var before, after := FirstOf(factor, e, f), FirstOf(factor, Raised(e, i, s), f);
      && (f != factor(e[i]) || s == Info ==> after == before)
      && (e[i].severity != Info && f == factor(e[i]) ==>
            after.Some? && before.Some? && SeverityRank(before.value.severity) <= SeverityRank(after.value.severity))
    decreases |e|
  {
    RaisedSplit(e, i, s);
    if i > 0 {
      FirstOfRaised(factor, e[1..], i - 1, s, f);
    } else if s == Info {
      assert e[0].(severity := s) == e[0];
    }
  }

  /** An INFO item that is raised counts for its factor exactly if none before it does. */
  lemma {:induction false} FirstOfRaisedInfo(factor: Evidence -> Factor, e: seq<Evidence>, i: nat, s: Severity)
    requires i < |e| && IgnoresSeverity(factor) && e[i].severity == Info && s != Info
    ensures
      var f := factor(e[i]);
      FirstOf(factor, Raised(e, i, s), f) == if NoneBefore(factor, e, i) then Some(e[i].(severity := s)) else FirstOf(factor, e, f)
    decreases |e|
  {
    RaisedSplit(e, i, s);
    if i > 0 {
      FirstOfRaisedInfo(factor, e[1..], i - 1, s);
      NoneBeforeCons(factor, e, i);
    }
  }

  lemma PointsForGrow(w: Weights, f: Factor, before: Option<Evidence>, after: Option<Evidence>)
    requires NonNegative(w) && after.Some?
    requires before.Some? ==> SeverityRank(before.value.severity) <= SeverityRank(after.value.severity)
    ensures PointsFor(w, f, before) <= PointsFor(w, f, after)
  {
    WorthGrows(w(f), if before.Some? then before.value.severity else Info, after.value.severity);
  }

  /** The item of factor `f` that counts, as a severity; INFO if none does. */
  function CountedSeverity(factor: Evidence -> Factor, e: seq<Evidence>, f: Factor): Severity {
    if FirstOf(factor, e, f).None? then Info else FirstOf(factor, e, f).value.severity
  }

  lemma RaisingMovesOneShare(w: Weights, factor: Evidence -> Factor, e: seq<Evidence>, i: nat, s: Severity)
    requires i < |e| && IgnoresSeverity(factor) && SeverityRank(s) >= SeverityRank(e[i].severity)
    ensures
      var f, e' := factor(e[i]), Raised(e, i, s);
      Points(Breakdown(w, factor, e')) - Points(Breakdown(w, factor, e)) ==
      PointsFor(w, f, FirstOf(factor, e', f)) - PointsFor(w, f, FirstOf(factor, e, f))
  {
    var e' := Raised(e, i, s);
    PointsAreShares(w, factor, e, {});
    PointsAreShares(w, factor, e', {});
    forall g | g != factor(e[i])
      ensures ShareOf(w, factor, e', {}, g) == ShareOf(w, factor, e, {}, g)
    {
      FirstOfRaised(factor, e, i, s, g);
    }
    SharesDiffer(w, factor, e', {}, e, {}, factor(e[i]));
  }

  /** Making an item above INFO more severe never lowers score or level. */
  lemma {:induction false} RaisingNeverLowers(w: Weights, factor: Evidence -> Factor, e: seq<Evidence>, i: nat, s: Severity)
    requires NonNegative(w) && IgnoresSeverity(factor)
    requires i < |e| && e[i].severity != Info && SeverityRank(s) >= SeverityRank(e[i].severity)
    ensures
      var r, r' := ScoreOf(Breakdown(w, factor, e)), ScoreOf(Breakdown(w, factor, Raised(e, i, s)));
      r.score <= r'.score && LevelRank(r.level) <= LevelRank(r'.level)
  {
    var f := factor(e[i]);
    FirstOfRaised(factor, e, i, s, f);
    PointsForGrow(w, f, FirstOf(factor, e, f), FirstOf(factor, Raised(e, i, s), f));
    RaisingMovesOneShare(w, factor, e, i, s);
  }

  /** Raising an item lowers the score exactly if it was INFO and now counts in place of a
      later item of its factor that is worth more, and the sum falls below 100. */
  lemma {:induction false} RaisingLowersIff(w: Weights, factor: Evidence -> Factor, e: seq<Evidence>, i: nat, s: Severity)
    requires NonNegative(w) && IgnoresSeverity(factor)
    requires i < |e| && SeverityRank(s) >= SeverityRank(e[i].severity)
    ensures
      var f := factor(e[i]);
      var now, raised := Worth(w(f), CountedSeverity(factor, e, f)), Worth(w(f), s);
      ScoreOf(Breakdown(w, factor, Raised(e, i, s))).score < ScoreOf(Breakdown(w, factor, e)).score <==>
      && e[i].severity == Info && s != Info && NoneBefore(factor, e, i)
      && raised < now && Points(Breakdown(w, factor, e)) - now + raised < 10000
  {
    var f := factor(e[i]);
    assert Worth(w(f), Info) == 0;
    FirstOfRaised(factor, e, i, s, f);
    RaisingMovesOneShare(w, factor, e, i, s);
    if e[i].severity != Info {
      RaisingNeverLowers(w, factor, e, i, s);
    } else if s != Info {
      FirstOfRaisedInfo(factor, e, i, s);
    }
  }

  lemma FactorIgnoresSeverity()
    ensures IgnoresSeverity(FactorOf)
  {
  }

  lemma OneItemBreakdown(w: Weights, factor: Evidence -> Factor, item: Evidence)
    ensures
      var cs := Breakdown(w, factor, [item]);
      if item.severity == Info then cs == [] else cs == [Contribute(w, factor(item), item)]
  {
    var one := [item];
    assert one[1..] == [] && one[0] == item;
    assert Contributions(w, factor, [], {}) == [] && Contributions(w, factor, [], {} + {factor(item)}) == [];
    assert Multiplier(item.severity) > 0.0 <==> item.severity != Info;
    assert Contributions(w, factor, one, {}) ==
           if item.severity == Info then [] else [Contribute(w, factor(item), item)] + [];
  }

  lemma OneContribution(c: Contribution)
    ensures Points([c]) == c.points && Reasons([c]) == [c.reason]
  {
    PointsCons(c, []);
    assert [c] + [] == [c];
  }

  /** A single item scores the literal share of its factor's weight, up to 100. */
  lemma {:induction false} OneItemScores(w: Weights, item: Evidence)
    ensures
      var r, f := ScoreOf(Breakdown(w, FactorOf, [item])), FactorOf(item);
      && (item.severity == Info ==> r.score == 0 && r.confidence == 50 && r.breakdown == [])
      && (item.severity == LowSeverity ==> r.score == Least(10000, Hundredths(0.25 * w(f))))
      && (item.severity == MediumSeverity ==> r.score == Least(10000, Hundredths(0.5 * w(f))))
      && (item.severity == HighSeverity ==> r.score == Least(10000, Hundredths(0.8 * w(f))))
      && (item.severity == CriticalSeverity ==> r.score == Least(10000, Hundredths(w(f))))
      && (item.severity != Info ==> r.confidence == 60 && r.reasons == [item.description])
  {
    OneItemBreakdown(w, FactorOf, item);
    if item.severity != Info {
      OneContribution(Contribute(w, FactorOf(item), item));
    }
  }

  function Least(x: int, y: int): int {
    if x <= y then x else y
  }

  lemma QuarterIsLess(x: real)
    requires 0.02 <= x <= 100.0
    ensures 0 <= Hundredths(0.25 * x) < Hundredths(x) <= 10000
  {
    HundredthsAreNearest(0.25 * x);
    HundredthsAreNearest(x);
    HundredthsMonotone(x, 100.0);
    HundredthsMonotone(0.0, 0.25 * x);
  }

  lemma PairOfOneFactor(w: Weights, factor: Evidence -> Factor, a: Evidence, b: Evidence)
    requires factor(a) == factor(b) && b.severity != Info
    ensures Breakdown(w, factor, [a, b]) == [Contribute(w, factor(b), if a.severity == Info then b else a)]
  {
    assert [a] + [b] == [a, b];
    OneItemBreakdown(w, factor, a);
    LastContributes(w, factor, [a], b, {});
    assert Unused(factor, [a], factor(b)) <==> [a][0].severity == Info || factor([a][0]) != factor(b);
  }

  /** One INFO item in front of a CRITICAL one of the same factor: raised to LOW it takes the
      score of the pair from the whole weight to a quarter of it. */
  lemma {:induction false} RaisingInfoCanLower(w: Weights, factor: Evidence -> Factor, info: Evidence, critical: Evidence)
    requires IgnoresSeverity(factor) && factor(info) == factor(critical)
    requires info.severity == Info && critical.severity == CriticalSeverity && 0.02 <= w(factor(critical)) <= 100.0
    ensures
      var e, f := [info, critical], factor(critical);
      && ScoreOf(Breakdown(w, factor, e)).score == Hundredths(w(f))
      && ScoreOf(Breakdown(w, factor, Raised(e, 0, LowSeverity))).score == Hundredths(0.25 * w(f)) < Hundredths(w(f))
  {
    var f, low := factor(critical), info.(severity := LowSeverity);
    assert Raised([info, critical], 0, LowSeverity) == [low, critical];
    assert factor(low) == f;
    PairOfOneFactor(w, factor, info, critical);
    PairOfOneFactor(w, factor, low, critical);
    OneContribution(Contribute(w, f, critical));
    OneContribution(Contribute(w, f, low));
    QuarterIsLess(w(f));
  }

  /** The scoring loop. */
  method Collect(w: Weights, factor: Evidence -> Factor, evidence: seq<Evidence>) returns (cs: seq<Contribution>)
    ensures cs == Breakdown(w, factor, evidence)
  {
    cs := [];
    var seen: set<Factor> := {};
    for i := 0 to |evidence|
      invariant Breakdown(w, factor, evidence) == cs + Contributions(w, factor, evidence[i..], seen)
    {
      var item := evidence[i];
      var f := factor(item);
      assert evidence[i..][0] == item && evidence[i..][1..] == evidence[i + 1..];
      if f in seen {
        continue;
      }
      if Multiplier(item.severity) <= 0.0 {
        continue;
      }
      seen := seen + {f};
      cs := cs + [Contribute(w, f, item)];
    }
  }

  method SumPoints(cs: seq<Contribution>) returns (sum: int)
    ensures sum == Points(cs)
  {
    sum := 0;
    for i := 0 to |cs|
      invariant sum == Points(cs[..i])
    {
      assert cs[..i + 1][..i] == cs[..i];
      sum := sum + cs[i].points;
    }
    assert cs[..|cs|] == cs;
  }

  /** The breakdown has one entry for each factor with an item above INFO, made from the first
      such item; the score is the sum of its points up to 100. */
  method Score(w: Weights, evidence: seq<Evidence>) returns (s: RiskScore, ghost idx: seq<nat>)
    ensures s == ScoreOf(Breakdown(w, FactorOf, evidence))
    ensures MadeFromFirsts(w, FactorOf, evidence, s.breakdown, idx)
    ensures s.score == (if Points(s.breakdown) < 10000 then Points(s.breakdown) else 10000)
    ensures s.level == Critical <==> s.score >= 7500
    ensures s.level == High <==> 5000 <= s.score < 7500
    ensures s.level == Medium <==> 2500 <= s.score < 5000
    ensures s.level == Low <==> s.score < 2500
    ensures |s.breakdown| < 5 ==> s.confidence == 50 + 10 * |s.breakdown|
    ensures |s.breakdown| >= 5 ==> s.confidence == 99
    ensures |s.reasons| == |s.breakdown| && forall i :: 0 <= i < |s.reasons| ==> s.reasons[i] == evidence[idx[i]].description
  {
    var cs := Collect(w, FactorOf, evidence);
    idx := BreakdownIsOfFirsts(w, FactorOf, evidence);
    var sum := SumPoints(cs);
    HundredthsAreExact(sum);
    var total := CapScore(Hundredths(sum as real / 100.0));
    s := RiskScore(total, ConfidenceOf(|cs|), LevelOf(total), Reasons(cs), cs);
  }
}
