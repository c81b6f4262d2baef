/** What the order of feedback and the rollback of an older update do to an entity's trust. */
module ConvergenceOrder {
  import opened Common
  import opened Convergence
  import opened ConvergenceReplay

  /** The updates `ds`, one after the other, from score `x`. */
  function Fold(x: real, ds: seq<real>): real {
    if ds == [] then x else Unit(Fold(x, ds[..|ds| - 1]) + ds[|ds| - 1])
  }

  function Sum(ds: seq<real>): real {
    if ds == [] then 0.0 else Sum(ds[..|ds| - 1]) + ds[|ds| - 1]
  }

  // ---------- The closed form of a sequence of updates ----------

  lemma ClampStep(lo: real, hi: real, y: real, d: real)
    requires 0.0 <= lo <= hi <= 1.0
    ensures Unit(Clamp(lo, hi, y) + d) == Clamp(Unit(lo + d), Unit(hi + d), y + d)
    ensures 0.0 <= Unit(lo + d) <= Unit(hi + d) <= 1.0
  {
  }

  /** Any updates, of any signs, amount to one: their sum, cut off where the same updates
      take the two ends of the range. */
  lemma {:induction false} FoldIsClampedSum(x: real, ds: seq<real>)
    requires InUnit(x)
    ensures Fold(x, ds) == Clamp(Fold(0.0, ds), Fold(1.0, ds), x + Sum(ds))
    ensures 0.0 <= Fold(0.0, ds) <= Fold(1.0, ds) <= 1.0
    decreases |ds|
  {
    if ds != [] {
      var rest, d := ds[..|ds| - 1], ds[|ds| - 1];
      FoldIsClampedSum(x, rest);
      ClampStep(Fold(0.0, rest), Fold(1.0, rest), x + Sum(rest), d);
    }
  }

  /** When updates leave a score where it was. */
  ghost predicate Rests(v: real, ds: seq<real>) {
    if Sum(ds) > 0.0 then v == Fold(1.0, ds)
    else if Sum(ds) < 0.0 then v == Fold(0.0, ds)
    else Fold(0.0, ds) <= v <= Fold(1.0, ds)
  }

  lemma {:induction false} FoldRestsIff(v: real, ds: seq<real>)
    requires InUnit(v)
    ensures v == Fold(v, ds) <==> Rests(v, ds)
  {
    FoldIsClampedSum(v, ds);
  }

  ghost predicate SameSign(ds: seq<real>) {
    || (forall i :: 0 <= i < |ds| ==> ds[i] >= 0.0)
    || (forall i :: 0 <= i < |ds| ==> ds[i] <= 0.0)
  }

  lemma {:induction false} SameSignFold(x: real, ds: seq<real>)
    requires InUnit(x) && SameSign(ds)
    ensures Fold(x, ds) == Unit(x + Sum(ds))
    ensures (forall i :: 0 <= i < |ds| ==> ds[i] >= 0.0) ==> Sum(ds) >= 0.0
    ensures (forall i :: 0 <= i < |ds| ==> ds[i] <= 0.0) ==> Sum(ds) <= 0.0
    decreases |ds|
  {
    if ds != [] {
      SameSignFold(x, ds[..|ds| - 1]);
    }
  }

  lemma {:induction false} FoldNeverWidensGap(x: real, y: real, ds: seq<real>)
    requires x <= y
    ensures 0.0 <= Fold(y, ds) - Fold(x, ds) <= y - x
    decreases |ds|
  {
    if ds != [] {
      FoldNeverWidensGap(x, y, ds[..|ds| - 1]);
    }
  }

  lemma {:induction false} SumWithout(ds: seq<real>, i: nat)
    requires i < |ds|
    ensures Sum(ds) == Sum(ds[..i] + ds[i + 1..]) + ds[i]
    decreases |ds|
  {
    var n := |ds| - 1;
    if i < n {
      SumWithout(ds[..n], i);
      WithoutThenLast(ds, i);
    } else {
      assert ds[..i] + ds[i + 1..] == ds[..n];
    }
  }

  lemma {:induction false} SumIsOrderFree(ds: seq<real>, es: seq<real>)
    requires multiset(ds) == multiset(es)
    ensures Sum(ds) == Sum(es)
    decreases |ds|
  {
    if ds == [] {
      assert |multiset(es)| == 0;
    } else {
      var i := MatchLast(ds, es);
      SumIsOrderFree(ds[..|ds| - 1], es[..i] + es[i + 1..]);
      SumWithout(es, i);
    }
  }

  lemma {:induction false} SameSignFoldIsOrderFree(x: real, ds: seq<real>, es: seq<real>)
    requires InUnit(x) && SameSign(ds) && multiset(ds) == multiset(es)
    ensures Fold(x, ds) == Fold(x, es)
  {
    forall i | 0 <= i < |es|
      ensures es[i] in multiset(ds)
    {
      assert es[i] in multiset(es);
    }
    SumIsOrderFree(ds, es);
    SameSignFold(x, ds);
    SameSignFold(x, es);
  }

  // ---------- When the order matters ----------

  /** The gains, or the rest, in their order. */
  function Part(ds: seq<real>, gains: bool): seq<real> {
    if ds == [] then []
    else Part(ds[..|ds| - 1], gains) + if (ds[|ds| - 1] > 0.0) == gains then [ds[|ds| - 1]] else []
  }

  /** The sum of the gains, or of the rest. */
  function PartSum(ds: seq<real>, gains: bool): real {
    if ds == [] then 0.0 else PartSum(ds[..|ds| - 1], gains) + Share(ds[|ds| - 1], gains)
  }

  function Share(d: real, gains: bool): real {
    if (d > 0.0) == gains then d else 0.0
  }

  function Gains(ds: seq<real>): real {
    PartSum(ds, true)
  }

  function Losses(ds: seq<real>): real {
    PartSum(ds, false)
  }

  lemma SumConcat(ds: seq<real>, d: real)
    ensures Sum(ds + [d]) == Sum(ds) + d
  {
    assert (ds + [d])[..|ds|] == ds;
  }

  lemma {:induction false} SumOfPart(ds: seq<real>, gains: bool)
    ensures Sum(Part(ds, gains)) == PartSum(ds, gains)
    decreases |ds|
  {
    if ds != [] {
      var n := |ds| - 1;
      SumOfPart(ds[..n], gains);
      if (ds[n] > 0.0) == gains {
        SumConcat(Part(ds[..n], gains), ds[n]);
      } else {
        assert Part(ds, gains) == Part(ds[..n], gains);
      }
    }
  }

  /** If the gains alone and the losses alone stay in range, nothing is ever cut off. */
  lemma {:induction false} NothingIsCutOff(x: real, ds: seq<real>)
    requires 0.0 <= x + Losses(ds) && x + Gains(ds) <= 1.0
    ensures Fold(x, ds) == x + Sum(ds) && Sum(ds) == Gains(ds) + Losses(ds)
    ensures Losses(ds) <= 0.0 <= Gains(ds)
    decreases |ds|
  {
    if ds != [] {
      NothingIsCutOff(x, ds[..|ds| - 1]);
    }
  }

  lemma {:induction false} PartSigns(ds: seq<real>, gains: bool)
    ensures forall i :: 0 <= i < |Part(ds, gains)| ==> (Part(ds, gains)[i] > 0.0) == gains
    decreases |ds|
  {
    if ds != [] {
      PartSigns(ds[..|ds| - 1], gains);
    }
  }

  lemma {:induction false} PartSumSigns(ds: seq<real>)
    ensures Losses(ds) <= 0.0 <= Gains(ds)
    ensures (exists i :: 0 <= i < |ds| && ds[i] > 0.0) ==> Gains(ds) > 0.0
    ensures (exists i :: 0 <= i < |ds| && ds[i] < 0.0) ==> Losses(ds) < 0.0
    decreases |ds|
  {
    if ds != [] {
      PartSumSigns(ds[..|ds| - 1]);
    }
  }

  lemma PartSplitsLast(before: seq<real>, d: real)
    ensures Part(before + [d], d > 0.0) == Part(before, d > 0.0) + [d]
    ensures Part(before + [d], d <= 0.0) == Part(before, d <= 0.0)
  {
    assert (before + [d])[..|before|] == before;
  }

  lemma PartOneMore(before: seq<real>, d: real)
    requires Deals(before, Part(before, true), Part(before, false))
    ensures Deals(before + [d], Part(before + [d], true), Part(before + [d], false))
  {
    PartSplitsLast(before, d);
    DealOneMore(before, Part(before, true), Part(before, false), d);
  }

  lemma {:induction false} PartsAreDealt(ds: seq<real>)
    ensures Deals(ds, Part(ds, true), Part(ds, false))
    decreases |ds|
  {
    if ds != [] {
      var before, d := ds[..|ds| - 1], ds[|ds| - 1];
      PartsAreDealt(before);
      PartOneMore(before, d);
      assert ds == before + [d];
    }
  }

  lemma {:induction false} FoldInTwo(x: real, ds: seq<real>, es: seq<real>)
    ensures Fold(x, ds + es) == Fold(Fold(x, ds), es)
    decreases |es|
  {
    if es == [] {
      assert ds + es == ds;
    } else {
      FoldInTwo(x, ds, es[..|es| - 1]);
      SplitLast(ds, es);
      FoldConcat(x, ds + es[..|es| - 1], es[|es| - 1]);
    }
  }

  lemma FoldParts(x: real, ds: seq<real>, gains: bool)
    requires InUnit(x)
    ensures Fold(x, Part(ds, gains) + Part(ds, !gains)) == Unit(Unit(x + PartSum(ds, gains)) + PartSum(ds, !gains))
  {
    var x1 := Unit(x + PartSum(ds, gains));
    FoldPart(x, ds, gains);
    FoldPart(x1, ds, !gains);
    FoldOn(x, Part(ds, gains), x1, Part(ds, !gains));
  }

  lemma FoldOn(x: real, ds: seq<real>, y: real, es: seq<real>)
    requires Fold(x, ds) == y
    ensures Fold(x, ds + es) == Fold(y, es)
  {
    FoldInTwo(x, ds, es);
  }

  lemma FoldPart(x: real, ds: seq<real>, gains: bool)
    requires InUnit(x)
    ensures Fold(x, Part(ds, gains)) == Unit(x + PartSum(ds, gains))
  {
    SumOfPart(ds, gains);
    PartSigns(ds, gains);
    SameSignFold(x, Part(ds, gains));
  }

  lemma OppositeStepsIff(x: real, a: real, b: real)
    requires InUnit(x) && b < 0.0 < a
    ensures Unit(Unit(x + a) + b) == Unit(Unit(x + b) + a) <==> 0.0 <= x + b && x + a <= 1.0
  {
  }

  /** One sign only, or gains and losses that each stay in range on their own. */
  ghost predicate OrderFree(x: real, ds: seq<real>) {
    SameSign(ds) || (0.0 <= x + Losses(ds) && x + Gains(ds) <= 1.0)
  }

  /** Gains first and losses first give the same exactly if the order is free. */
  lemma {:induction false} ExtremesAgreeIff(x: real, ds: seq<real>)
    requires InUnit(x)
    ensures Fold(x, Part(ds, true) + Part(ds, false)) == Fold(x, Part(ds, false) + Part(ds, true)) <==> OrderFree(x, ds)
  {
    FoldParts(x, ds, true);
    FoldParts(x, ds, false);
    if !SameSign(ds) {
      PartSumSigns(ds);
      assert Gains(ds) > 0.0 && Losses(ds) < 0.0;
      OppositeStepsIff(x, Gains(ds), Losses(ds));
    } else {
      PermutedPartsAgree(x, ds);
    }
  }

  lemma PermutedPartsAgree(x: real, ds: seq<real>)
    requires InUnit(x) && SameSign(ds)
    ensures Fold(x, Part(ds, true) + Part(ds, false)) == Fold(x, Part(ds, false) + Part(ds, true)) == Fold(x, ds)
  {
    PartsAreDealt(ds);
    DealtEitherWay(ds, Part(ds, true), Part(ds, false));
    SameSignFoldIsOrderFree(x, ds, Part(ds, true) + Part(ds, false));
    SameSignFoldIsOrderFree(x, ds, Part(ds, false) + Part(ds, true));
  }

  lemma {:induction false} PartSumsOfPermutation(ds: seq<real>, es: seq<real>, gains: bool)
    requires multiset(ds) == multiset(es)
    ensures PartSum(ds, gains) == PartSum(es, gains)
    decreases |ds|
  {
    if ds == [] {
      assert |multiset(es)| == 0;
    } else {
      var i := MatchLast(ds, es);
      PartSumsOfPermutation(ds[..|ds| - 1], es[..i] + es[i + 1..], gains);
      PartSumWithout(es, i, gains);
    }
  }

  lemma {:induction false} PartSumWithout(ds: seq<real>, i: nat, gains: bool)
    requires i < |ds|
    ensures PartSum(ds, gains) == PartSum(ds[..i] + ds[i + 1..], gains) + Share(ds[i], gains)
    decreases |ds|
  {
    var n := |ds| - 1;
    if i < n {
      PartSumWithout(ds[..n], i, gains);
      WithoutThenLast(ds, i);
    } else {
      assert ds[..i] + ds[i + 1..] == ds[..n];
    }
  }

  lemma {:induction false} OrderFreeFold(x: real, ds: seq<real>, es: seq<real>)
    requires InUnit(x) && OrderFree(x, ds) && multiset(ds) == multiset(es)
    ensures Fold(x, ds) == Fold(x, es)
  {
    if SameSign(ds) {
      SameSignFoldIsOrderFree(x, ds, es);
    } else {
      PartSumsOfPermutation(ds, es, true);
      PartSumsOfPermutation(ds, es, false);
      NothingIsCutOff(x, ds);
      NothingIsCutOff(x, es);
    }
  }

  // ---------- What the engine applies ----------

  /** The delta of `s` if the tenant applies it to the entity. */
  function DeltaNow(t: Tenant, s: Submission, entity: string): seq<real> {
    if IsKnown(t, s) || s.entity != entity then [] else [Delta(s.verdict, s.level)]
  }

  /** The deltas applied to one entity while `ss` is submitted. */
  function AppliedDeltas(t: Tenant, ss: seq<Submission>, entity: string): seq<real>
    decreases |ss|
  {
    if ss == [] then []
    else
      var n := |ss| - 1;
      AppliedDeltas(t, ss[..n], entity) + DeltaNow(Run(t, Submits(ss[..n])), ss[n], entity)
  }

  lemma SubmitLast(t: Tenant, ss: seq<Submission>)
    requires ss != []
    ensures Run(t, Submits(ss)) == Applied(Run(t, Submits(ss[..|ss| - 1])), ss[|ss| - 1])
  {
    var n := |ss| - 1;
    assert Submits(ss) == Submits(ss[..n]) + [Submit(ss[n])];
    RunConcat(t, [], Submits(ss[..n]), Submit(ss[n]), "");
  }

  lemma FoldConcat(x: real, ds: seq<real>, d: real)
    ensures Fold(x, ds + [d]) == Unit(Fold(x, ds) + d)
  {
    assert (ds + [d])[..|ds|] == ds;
  }

  lemma FoldNow(x: real, ds: seq<real>, t: Tenant, s: Submission, entity: string)
    requires Trust(t, entity) == Fold(x, ds)
    ensures Trust(Applied(t, s), entity) == Fold(x, ds + DeltaNow(t, s, entity))
  {
    RecordAfterSubmit(t, s, entity);
    if DeltaNow(t, s, entity) == [] {
      assert ds + [] == ds;
    } else {
      FoldConcat(x, ds, Delta(s.verdict, s.level));
    }
  }

  /** An entity's trust after any submissions, from any state. */
  lemma {:induction false} TrustIsFold(t: Tenant, ss: seq<Submission>, entity: string)
    ensures Trust(Run(t, Submits(ss)), entity) == Fold(Trust(t, entity), AppliedDeltas(t, ss, entity))
    decreases |ss|
  {
    if ss != [] {
      var n := |ss| - 1;
      TrustIsFold(t, ss[..n], entity);
      SubmitLast(t, ss);
      FoldNow(Trust(t, entity), AppliedDeltas(t, ss[..n], entity), Run(t, Submits(ss[..n])), ss[n], entity);
    }
  }

  lemma TrustInUnit(t: Tenant, entity: string)
    requires ScoresInv(t)
    ensures InUnit(Trust(t, entity))
  {
  }

  /** Feedback of one sign moves an entity's trust by its sum, cut off at 0 and 1. */
  lemma {:induction false} SameSignTrustIsClampedSum(t: Tenant, ss: seq<Submission>, entity: string)
    requires ScoresInv(t) && SameSign(AppliedDeltas(t, ss, entity))
    ensures Trust(Run(t, Submits(ss)), entity) == Unit(Trust(t, entity) + Sum(AppliedDeltas(t, ss, entity)))
  {
    TrustIsFold(t, ss, entity);
    TrustInUnit(t, entity);
    SameSignFold(Trust(t, entity), AppliedDeltas(t, ss, entity));
  }

  /** Two entities that get the same feedback keep their order, and their gap never widens. */
  lemma {:induction false} FeedbackNeverWidensGap(t: Tenant, ss: seq<Submission>, low: string, high: string)
    requires Trust(t, low) <= Trust(t, high)
    requires AppliedDeltas(t, ss, low) == AppliedDeltas(t, ss, high)
    ensures
      var t' := Run(t, Submits(ss));
      0.0 <= Trust(t', high) - Trust(t', low) <= Trust(t, high) - Trust(t, low)
  {
    TrustIsFold(t, ss, low);
    TrustIsFold(t, ss, high);
    FoldNeverWidensGap(Trust(t, low), Trust(t, high), AppliedDeltas(t, ss, low));
  }

  // ---------- Order of submissions ----------

  predicate SharesId(s: Submission, u: Submission) {
    s.eventId == u.eventId || s.eventId == u.feedbackId || s.feedbackId == u.eventId || s.feedbackId == u.feedbackId
  }

  /** No two submissions of the list share an id. */
  ghost predicate Apart(ss: seq<Submission>) {
    forall i, j :: 0 <= i < j < |ss| ==> !SharesId(ss[i], ss[j])
  }

  /** The deltas of the submissions the tenant does not know yet. */
  function NewDeltas(t: Tenant, ss: seq<Submission>, entity: string): seq<real>
    decreases |ss|
  {
    if ss == [] then [] else NewDeltas(t, ss[..|ss| - 1], entity) + DeltaNow(t, ss[|ss| - 1], entity)
  }

  lemma {:induction false} KnownAfter(t: Tenant, ss: seq<Submission>, u: Submission)
    requires forall i :: 0 <= i < |ss| ==> !SharesId(ss[i], u)
    ensures IsKnown(Run(t, Submits(ss)), u) <==> IsKnown(t, u)
    decreases |ss|
  {
    if ss != [] {
      KnownAfter(t, ss[..|ss| - 1], u);
      SubmitLast(t, ss);
      assert !SharesId(ss[|ss| - 1], u);
    }
  }

  lemma {:induction false} ApartAppliesAllNew(t: Tenant, ss: seq<Submission>, entity: string)
    requires Apart(ss)
    ensures AppliedDeltas(t, ss, entity) == NewDeltas(t, ss, entity)
    decreases |ss|
  {
    if ss != [] {
      var n := |ss| - 1;
      ApartAppliesAllNew(t, ss[..n], entity);
      KnownAfter(t, ss[..n], ss[n]);
    }
  }

  lemma LastOfNewDeltas(t: Tenant, ss: seq<Submission>, entity: string)
    requires ss != []
    ensures multiset(NewDeltas(t, ss, entity)) ==
            multiset(NewDeltas(t, ss[..|ss| - 1], entity)) + multiset(DeltaNow(t, ss[|ss| - 1], entity))
  {
  }

  lemma WithoutThenLast<T>(s: seq<T>, i: nat)
    requires i < |s| - 1
    ensures
      var n, rest := |s| - 1, s[..i] + s[i + 1..];
      rest[..|rest| - 1] == s[..n][..i] + s[..n][i + 1..] && rest[|rest| - 1] == s[n]
  {
  }

  lemma {:induction false} NewDeltasWithout(t: Tenant, ss: seq<Submission>, entity: string, i: nat)
    requires i < |ss|
    ensures multiset(NewDeltas(t, ss, entity)) ==
            multiset(NewDeltas(t, ss[..i] + ss[i + 1..], entity)) + multiset(DeltaNow(t, ss[i], entity))
    decreases |ss|
  {
    var n := |ss| - 1;
    LastOfNewDeltas(t, ss, entity);
    if i < n {
      NewDeltasWithout(t, ss[..n], entity, i);
      WithoutThenLast(ss, i);
      LastOfNewDeltas(t, ss[..i] + ss[i + 1..], entity);
    } else {
      assert ss[..i] + ss[i + 1..] == ss[..n];
    }
  }

  lemma {:induction false} NewDeltasOfPermutation(t: Tenant, ss: seq<Submission>, us: seq<Submission>, entity: string)
    requires multiset(ss) == multiset(us)
    ensures multiset(NewDeltas(t, ss, entity)) == multiset(NewDeltas(t, us, entity))
    decreases |ss|
  {
    if ss == [] {
      assert |multiset(us)| == 0;
    } else {
      var i := MatchLast(ss, us);
      NewDeltasOfPermutation(t, ss[..|ss| - 1], us[..i] + us[i + 1..], entity);
      NewDeltasWithout(t, us, entity, i);
    }
  }

  lemma {:induction false} ApartOfPermutation(ss: seq<Submission>, us: seq<Submission>)
    requires Apart(ss) && multiset(ss) == multiset(us)
    ensures Apart(us)
    decreases |ss|
  {
    if ss == [] {
      assert |multiset(us)| == 0;
    } else {
      var n := |ss| - 1;
      var i := MatchLast(ss, us);
      var rest := us[..i] + us[i + 1..];
      ApartOfPermutation(ss[..n], rest);
      forall k | 0 <= k < |rest|
        ensures !SharesId(rest[k], us[i])
      {
        assert rest[k] in multiset(rest);
        assert rest[k] in multiset(ss[..n]);
        assert rest[k] in ss[..n];
      }
      ApartInserted(us, i, rest);
    }
  }

  lemma ApartInserted(us: seq<Submission>, i: nat, rest: seq<Submission>)
    requires i < |us| && rest == us[..i] + us[i + 1..] && Apart(rest)
    requires forall k :: 0 <= k < |rest| ==> !SharesId(rest[k], us[i])
    ensures Apart(us)
  {
    forall j, k | 0 <= j < k < |us|
      ensures !SharesId(us[j], us[k])
    {
      assert j < i ==> rest[j] == us[j];
      assert j > i ==> rest[j - 1] == us[j];
      assert k < i ==> rest[k] == us[k];
      assert k > i ==> rest[k - 1] == us[k];
    }
  }

  /** Submissions without shared ids may be made in any order if their deltas on the entity
      have one sign. */
  lemma {:induction false} SameSignOrderFree(t: Tenant, ss: seq<Submission>, us: seq<Submission>, entity: string)
    requires ScoresInv(t) && Apart(ss) && multiset(ss) == multiset(us)
    requires SameSign(AppliedDeltas(t, ss, entity))
    ensures Trust(Run(t, Submits(ss)), entity) == Trust(Run(t, Submits(us)), entity)
  {
    ApartOfPermutation(ss, us);
    ApartAppliesAllNew(t, ss, entity);
    ApartAppliesAllNew(t, us, entity);
    NewDeltasOfPermutation(t, ss, us, entity);
    TrustIsFold(t, ss, entity);
    TrustIsFold(t, us, entity);
    SameSignFoldIsOrderFree(Trust(t, entity), AppliedDeltas(t, ss, entity), AppliedDeltas(t, us, entity));
  }

  /** The submissions that bring a gain to the entity, or the others. */
  function Batch(t: Tenant, ss: seq<Submission>, entity: string, gains: bool): seq<Submission> {
    if ss == [] then []
    else
      var n := |ss| - 1;
      Batch(t, ss[..n], entity, gains) + if BringsGain(t, ss[n], entity) == gains then [ss[n]] else []
  }

  predicate BringsGain(t: Tenant, s: Submission, entity: string) {
    DeltaNow(t, s, entity) != [] && Delta(s.verdict, s.level) > 0.0
  }

  lemma BatchSplitsLast(t: Tenant, before: seq<Submission>, s: Submission, entity: string)
    ensures
      var gain := BringsGain(t, s, entity);
      && Batch(t, before + [s], entity, gain) == Batch(t, before, entity, gain) + [s]
      && Batch(t, before + [s], entity, !gain) == Batch(t, before, entity, !gain)
  {
    assert (before + [s])[..|before|] == before;
  }

  lemma BatchOneMore(t: Tenant, before: seq<Submission>, s: Submission, entity: string)
    requires Deals(before, Batch(t, before, entity, true), Batch(t, before, entity, false))
    ensures Deals(before + [s], Batch(t, before + [s], entity, true), Batch(t, before + [s], entity, false))
  {
    BatchSplitsLast(t, before, s, entity);
    DealOneMore(before, Batch(t, before, entity, true), Batch(t, before, entity, false), s);
  }

  lemma {:induction false} BatchesAreDealt(t: Tenant, ss: seq<Submission>, entity: string)
    ensures Deals(ss, Batch(t, ss, entity, true), Batch(t, ss, entity, false))
    decreases |ss|
  {
    if ss != [] {
      var before, s := ss[..|ss| - 1], ss[|ss| - 1];
      BatchesAreDealt(t, before, entity);
      BatchOneMore(t, before, s, entity);
      assert ss == before + [s];
    }
  }

  lemma NewDeltasConcat(t: Tenant, ss: seq<Submission>, s: Submission, entity: string)
    ensures NewDeltas(t, ss + [s], entity) == NewDeltas(t, ss, entity) + DeltaNow(t, s, entity)
  {
    assert (ss + [s])[..|ss|] == ss;
  }

  lemma PartConcat(ds: seq<real>, d: real, gains: bool)
    ensures Part(ds + [d], gains) == Part(ds, gains) + if (d > 0.0) == gains then [d] else []
  {
    assert (ds + [d])[..|ds|] == ds;
  }

  lemma {:induction false} NewDeltasOfBatch(t: Tenant, ss: seq<Submission>, entity: string, gains: bool)
    ensures NewDeltas(t, Batch(t, ss, entity, gains), entity) == Part(NewDeltas(t, ss, entity), gains)
    decreases |ss|
  {
    if ss != [] {
      var n := |ss| - 1;
      NewDeltasOfBatch(t, ss[..n], entity, gains);
      BatchStep(t, ss[n], entity, gains, Batch(t, ss[..n], entity, gains), NewDeltas(t, ss[..n], entity));
    }
  }

  lemma BatchStep(t: Tenant, s: Submission, entity: string, gains: bool,
                  batch: seq<Submission>, ds: seq<real>)
    requires NewDeltas(t, batch, entity) == Part(ds, gains)
    ensures NewDeltas(t, batch + if BringsGain(t, s, entity) == gains then [s] else [], entity) ==
            Part(ds + DeltaNow(t, s, entity), gains)
  {
    assert batch + [] == batch && ds + [] == ds && Part(ds, gains) + [] == Part(ds, gains);
    NewDeltasConcat(t, batch, s, entity);
    PartConcat(ds, Delta(s.verdict, s.level), gains);
  }

  lemma Regroup(a: seq<real>, b: seq<real>, c: seq<real>)
    ensures (a + b) + c == a + (b + c)
  {
  }

  lemma {:induction false} NewDeltasInTwo(t: Tenant, ss: seq<Submission>, us: seq<Submission>, entity: string)
    ensures NewDeltas(t, ss + us, entity) == NewDeltas(t, ss, entity) + NewDeltas(t, us, entity)
    decreases |us|
  {
    if us == [] {
      assert ss + us == ss;
    } else {
      var n := |us| - 1;
      NewDeltasInTwo(t, ss, us[..n], entity);
      SplitLast(ss, us);
      NewDeltasConcat(t, ss + us[..n], us[n], entity);
      Regroup(NewDeltas(t, ss, entity), NewDeltas(t, us[..n], entity), DeltaNow(t, us[n], entity));
    }
  }

  /** What a reordering of submissions without shared ids leads to. */
  lemma TrustOfReordering(t: Tenant, ss: seq<Submission>, us: seq<Submission>, entity: string)
    requires Apart(ss) && multiset(ss) == multiset(us)
    ensures Trust(Run(t, Submits(us)), entity) == Fold(Trust(t, entity), NewDeltas(t, us, entity))
  {
    ApartOfPermutation(ss, us);
    ApartAppliesAllNew(t, us, entity);
    TrustIsFold(t, us, entity);
  }

  lemma TrustOfBatches(t: Tenant, ss: seq<Submission>, entity: string, gains: bool)
    requires Apart(ss)
    ensures
      var us, ds := Batch(t, ss, entity, gains) + Batch(t, ss, entity, !gains), NewDeltas(t, ss, entity);
      multiset(us) == multiset(ss) &&
      Trust(Run(t, Submits(us)), entity) == Fold(Trust(t, entity), Part(ds, gains) + Part(ds, !gains))
  {
    var us := Batch(t, ss, entity, gains) + Batch(t, ss, entity, !gains);
    BatchesAreDealt(t, ss, entity);
    DealtEitherWay(ss, Batch(t, ss, entity, true), Batch(t, ss, entity, false));
    TrustOfReordering(t, ss, us, entity);
    NewDeltasInTwo(t, Batch(t, ss, entity, gains), Batch(t, ss, entity, !gains), entity);
    NewDeltasOfBatch(t, ss, entity, gains);
    NewDeltasOfBatch(t, ss, entity, !gains);
  }

  ghost predicate SameTrustInAnyOrder(t: Tenant, ss: seq<Submission>, entity: string) {
    forall us: seq<Submission> :: multiset(us) == multiset(ss) ==>
      Trust(Run(t, Submits(us)), entity) == Trust(Run(t, Submits(ss)), entity)
  }

  /** Submissions without shared ids leave an entity's trust the same in every order exactly
      if its new deltas have one sign, or all the gains fit below 1 and all the losses above 0. */
  lemma {:induction false} OrderFreeIff(t: Tenant, ss: seq<Submission>, entity: string)
    requires ScoresInv(t) && Apart(ss)
    ensures SameTrustInAnyOrder(t, ss, entity) <==> OrderFree(Trust(t, entity), NewDeltas(t, ss, entity))
  {
    if OrderFree(Trust(t, entity), NewDeltas(t, ss, entity)) {
      forall us: seq<Submission> | multiset(us) == multiset(ss)
        ensures Trust(Run(t, Submits(us)), entity) == Trust(Run(t, Submits(ss)), entity)
      {
        ReorderingAgrees(t, ss, us, entity);
      }
    } else {
      var us, ws := BatchesDiffer(t, ss, entity);
    }
  }

  lemma ReorderingAgrees(t: Tenant, ss: seq<Submission>, us: seq<Submission>, entity: string)
    requires ScoresInv(t) && Apart(ss) && multiset(us) == multiset(ss)
    requires OrderFree(Trust(t, entity), NewDeltas(t, ss, entity))
    ensures Trust(Run(t, Submits(us)), entity) == Trust(Run(t, Submits(ss)), entity)
  {
    TrustOfReordering(t, ss, us, entity);
    TrustOfReordering(t, ss, ss, entity);
    NewDeltasOfPermutation(t, ss, us, entity);
    OrderFreeFold(Trust(t, entity), NewDeltas(t, ss, entity), NewDeltas(t, us, entity));
  }

  lemma BatchesDiffer(t: Tenant, ss: seq<Submission>, entity: string) returns (us: seq<Submission>, ws: seq<Submission>)
    requires ScoresInv(t) && Apart(ss) && !OrderFree(Trust(t, entity), NewDeltas(t, ss, entity))
    ensures multiset(us) == multiset(ws) == multiset(ss)
    ensures Trust(Run(t, Submits(us)), entity) != Trust(Run(t, Submits(ws)), entity)
  {
    us := Batch(t, ss, entity, true) + Batch(t, ss, entity, false);
    ws := Batch(t, ss, entity, false) + Batch(t, ss, entity, true);
    TrustOfBatches(t, ss, entity, true);
    TrustOfBatches(t, ss, entity, false);
    ExtremesAgreeIff(Trust(t, entity), NewDeltas(t, ss, entity));
  }

  // ---------- Rolling back an older update ----------

  lemma {:induction false} ValueInUnit(log: Log)
    ensures InUnit(Value(log))
    decreases |log|
  {
    if log != [] {
      var before := log[..|log| - 1];
      ValueInUnit(before);
      if log[|log| - 1].Undone? {
        IndexInRange(before, log[|log| - 1].id);
        if IndexOf(before, log[|log| - 1].id).Some? {
          ValueInUnit(before[..IndexOf(before, log[|log| - 1].id).value]);
        }
      }
    }
  }

  function Deltas(log: Log): seq<real>
    requires forall i :: 0 <= i < |log| ==> log[i].Update?
  {
    seq(|log|, i requires 0 <= i < |log| => log[i].delta)
  }

  lemma DeltasSplit(log: Log)
    requires log != [] && forall i :: 0 <= i < |log| ==> log[i].Update?
    ensures
      var ds, n := Deltas(log), |log| - 1;
      ds != [] && ds[..|ds| - 1] == Deltas(log[..n]) && ds[|ds| - 1] == log[n].delta
  {
  }

  lemma {:induction false} ValueIsFold(before: Log, later: Log)
    requires forall i :: 0 <= i < |later| ==> later[i].Update?
    ensures Value(before + later) == Fold(Value(before), Deltas(later))
    decreases |later|
  {
    if later == [] {
      assert before + later == before;
    } else {
      var rest, x := later[..|later| - 1], later[|later| - 1];
      ValueIsFold(before, rest);
      SplitLast(before, later);
      DeltasSplit(later);
      ValueOfUpdate(before + rest, x);
    }
  }

  lemma {:induction false} IndexBehind(before: Log, u: Item, later: Log)
    requires u.Update? && forall i :: 0 <= i < |later| ==> later[i].id != u.id
    ensures IndexOf(before + [u] + later, u.id) == Some(|before|)
    decreases |later|
  {
    if later == [] {
      assert before + [u] + later == before + [u];
      IndexOfConcat(before, u, u.id);
    } else {
      IndexBehind(before, u, later[..|later| - 1]);
      SplitLast(before + [u], later);
      IndexOfConcat(before + [u] + later[..|later| - 1], later[|later| - 1], u.id);
    }
  }

  lemma RollbackRestores(before: Log, u: Item, later: Log)
    requires u.Update? && forall i :: 0 <= i < |later| ==> later[i].id != u.id
    ensures Value(before + [u] + later + [Undone(u.id)]) == Value(before)
  {
    var log := before + [u] + later;
    assert log[..|before|] == before;
    IndexBehind(before, u, later);
    ValueOfUndone(log, Undone(u.id), |before|);
  }

  /** In a replayed history, after any `before`: rolling back `u` gives the value the history
      would have without `u` exactly if the updates after it rest at the restored value. */
  lemma {:induction false} RollbackKeepsLaterUpdatesIff(before: Log, u: Item, later: Log)
    requires u.Update? && forall i :: 0 <= i < |later| ==> later[i].Update? && later[i].id != u.id
    ensures Value(before + [u] + later + [Undone(u.id)]) == Value(before + later) <==> Rests(Value(before), Deltas(later))
  {
    RollbackRestores(before, u, later);
    ValueIsFold(before, later);
    ValueInUnit(before);
    FoldRestsIff(Value(before), Deltas(later));
  }

  /** A feedback's trail entry stays unmarked while nobody asks for its rollback. */
  lemma {:induction false} UnmarkedStays(t: Tenant, ops: seq<Op>, i: nat)
    requires i < |t.audits| && t.audits[i].rolledBackBy.None?
    requires forall j :: 0 <= j < |ops| && ops[j].Revert? ==> ops[j].feedbackId != t.audits[i].feedbackId
    ensures i < |Run(t, ops).audits| && Run(t, ops).audits[i] == t.audits[i]
    decreases |ops|
  {
    if ops != [] {
      if ops[0].Revert? {
        FoundIsInRange(t.audits, ops[0].feedbackId);
      }
      assert Step(t, ops[0]).audits[i] == t.audits[i];
      UnmarkedStays(Step(t, ops[0]), ops[1..], i);
    }
  }

  /** Whatever is submitted or rolled back in between, the first rollback of a feedback
      sets the trust of its entity to what it was just before that feedback. */
  lemma {:induction false} RollbackRestoresPrior(t: Tenant, u: Submission, ops: seq<Op>, who: string)
    requires IdsInv(t) && ScoresInv(t) && !IsKnown(t, u)
    requires forall j :: 0 <= j < |ops| && ops[j].Revert? ==> ops[j].feedbackId != u.feedbackId
    ensures
      var r := Undo(Run(Applied(t, u), ops), u.feedbackId, who);
      r.outcome == RolledBack(Trust(t, u.entity)) && Trust(r.tenant, u.entity) == Trust(t, u.entity)
  {
    var t1, n := Applied(t, u), |t.audits|;
    SubmitKeepsIds(t, u);
    SubmitKeepsScores(t, u);
    RunKeepsInv(t1, ops);
    UnmarkedStays(t1, ops, n);
    RollbackTargetIsUnique(Run(t1, ops), n);
  }

  lemma SubmitsRevertNothing(ss: seq<Submission>)
    ensures forall j :: 0 <= j < |Submits(ss)| ==> Submits(ss)[j].Submit?
  {
  }

  /** A rollback is meant to take back one update. It leaves the trust as if that feedback
      had never been given exactly if the feedback submitted after it rests at the restored
      value: every other later update of the entity is forgotten with it. */
  lemma {:induction false} RollbackKeepsLaterFeedbackIff(t: Tenant, u: Submission, later: seq<Submission>, who: string)
    requires IdsInv(t) && ScoresInv(t) && !IsKnown(t, u)
    ensures
      Trust(Undo(Run(Applied(t, u), Submits(later)), u.feedbackId, who).tenant, u.entity) ==
      Trust(Run(t, Submits(later)), u.entity) <==>
      Rests(Trust(t, u.entity), AppliedDeltas(t, later, u.entity))
  {
    SubmitsRevertNothing(later);
    RollbackRestoresPrior(t, u, Submits(later), who);
    TrustIsFold(t, later, u.entity);
    FoldRestsIff(Trust(t, u.entity), AppliedDeltas(t, later, u.entity));
  }

  lemma UnitRestsIff(x: real, d: real)
    requires InUnit(x)
    ensures Unit(x + d) == x <==> d == 0.0 || (d > 0.0 && x == 1.0) || (d < 0.0 && x == 0.0)
  {
  }

  lemma RunOfOne(t: Tenant, op: Op)
    ensures Run(t, [op]) == Step(t, op)
  {
    assert [op][1..] == [];
    assert Run(Step(t, op), []) == Step(t, op);
  }

  /** Two feedbacks rolled back in the order they were given. */
  function OldestFirst(t: Tenant, u: Submission, w: Submission, who: string): Tenant {
    Undo(Undo(Applied(Applied(t, u), w), u.feedbackId, who).tenant, w.feedbackId, who).tenant
  }

  lemma SecondRollbackRestoresFirst(t: Tenant, u: Submission, w: Submission, who: string)
    requires IdsInv(t) && ScoresInv(t) && u.entity == w.entity
    requires !IsKnown(t, u) && !IsKnown(t, w) && !SharesId(u, w)
    ensures Trust(OldestFirst(t, u, w, who), u.entity) == Trust(Applied(t, u), u.entity)
  {
    SubmitKeepsIds(t, u);
    SubmitKeepsScores(t, u);
    StillUnknown(t, u, w);
    RollbackAfterAnother(Applied(t, u), w, u.feedbackId, who);
  }

  lemma StillUnknown(t: Tenant, u: Submission, w: Submission)
    requires !IsKnown(t, w) && !SharesId(u, w)
    ensures !IsKnown(Applied(t, u), w)
  {
  }

  lemma RollbackAfterAnother(t: Tenant, w: Submission, f: Uuid, who: string)
    requires IdsInv(t) && ScoresInv(t) && !IsKnown(t, w) && f != w.feedbackId
    ensures Trust(Undo(Undo(Applied(t, w), f, who).tenant, w.feedbackId, who).tenant, w.entity) == Trust(t, w.entity)
  {
    var ops := [Revert(f, who)];
    RunOfOne(Applied(t, w), ops[0]);
    RollbackRestoresPrior(t, w, ops, who);
  }

  /** Oldest first, rollbacks do not lead back: after both of two feedbacks are rolled back
      in the order they were given, the first one counts again. The trust is what it was
      before them exactly if the first one was zero or cut off entirely. */
  lemma {:induction false} RolledBackFeedbackCountsAgain(t: Tenant, u: Submission, w: Submission, who: string)
    requires IdsInv(t) && ScoresInv(t) && u.entity == w.entity
    requires !IsKnown(t, u) && !IsKnown(t, w) && !SharesId(u, w)
    ensures
      var t' := OldestFirst(t, u, w, who);
      var x, d := Trust(t, u.entity), Delta(u.verdict, u.level);
      && Trust(t', u.entity) == Trust(Applied(t, u), u.entity)
      && (Trust(t', u.entity) == x <==> d == 0.0 || (d > 0.0 && x == 1.0) || (d < 0.0 && x == 0.0))
  {
    SecondRollbackRestoresFirst(t, u, w, who);
    RecordAfterSubmit(t, u, u.entity);
    UnitRestsIff(Trust(t, u.entity), Delta(u.verdict, u.level));
  }
}
