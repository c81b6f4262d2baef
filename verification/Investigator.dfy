/** The investigation loop: plan, execute, replan, until the planner proposes nothing new or
    the iteration limit is reached. Planner, orchestrator and the cancel callback are
    oracles: round i of the input holds what they would answer in iteration i. */
module Investigator {
  import opened Common

  datatype StepStatus = Pending | Running | Completed | Failed | Skipped | Cancelled | Retrying

  datatype StepRecord = StepRecord(stepId: string, status: StepStatus)

  datatype Summary = Summary(completed: nat, failed: nat, records: seq<StepRecord>)

  /** The planner's answer: the step ids of a plan, or a failure. */
  datatype Planning = Planned(steps: seq<string>) | PlanFailed

  datatype Round = Round(cancelled: bool, planning: Planning, summary: Summary)

  /** A final decision proposes no steps. */
  datatype Decision = Decision(isFinal: bool, proposed: seq<string>)

  datatype Exit = CancelledByCaller | PlanningFailed | Halted | NothingNew | LimitReached

  datatype Result = Result(decisions: seq<Decision>, iterations: nat, history: seq<Summary>, success: bool, exit: Exit)

  /** `Crashed` is the read of an unbound variable when no iteration was allowed at all. */
  datatype Outcome = Returned(result: Result) | Crashed

  function NewSteps(steps: seq<string>, executed: set<string>): seq<string> {
    if steps == [] then []
    else NewSteps(steps[..|steps| - 1], executed) +
         if steps[|steps| - 1] in executed then [] else [steps[|steps| - 1]]
  }

  predicate IsSettled(r: StepRecord) {
    r.status == Completed || r.status == Failed || r.status == Skipped
  }

  function Settled(s: Summary): set<string> {
    set r | r in s.records && IsSettled(r) :: r.stepId
  }

  /** Step ids settled in the first `n` rounds. */
  function ExecutedBy(rounds: seq<Round>, n: nat): set<string>
    requires n <= |rounds|
  {
    if n == 0 then {} else ExecutedBy(rounds, n - 1) + Settled(rounds[n - 1].summary)
  }

  predicate Stalls(s: Summary) {
    s.completed == 0 && s.failed > 0
  }

  function Log(d: seq<Decision>, isFinal: bool, steps: seq<string>): seq<Decision> {
    d + [Decision(isFinal, steps)]
  }

  /** The loop from iteration `i` on. */
  function Loop(rounds: seq<Round>, max: int, i: nat, d: seq<Decision>, h: seq<Summary>): Outcome
    requires |rounds| >= max && i <= |rounds|
    decreases max - i
  {
    if i >= max then
      if max == 0 then Crashed else Returned(Result(d, i, h, false, LimitReached))
    else
      var r := rounds[i];
      if r.cancelled then Returned(Result(d, i, h, false, CancelledByCaller))
      else match r.planning
        case PlanFailed => Returned(Result(d, i, h, false, PlanningFailed))
        case Planned(steps) =>
          if NewSteps(steps, ExecutedBy(rounds, i)) == [] then
            Returned(Result(Log(d, true, []), i, h, true, NothingNew))
          else
            var d', h' := Log(d, false, steps), h + [r.summary];
            if Stalls(r.summary) then Returned(Result(d', i + 1, h', false, Halted))
            else Loop(rounds, max, i + 1, d', h')
  }

  // ---------- What every exit satisfies ----------

  /** Iteration `i` runs through and the loop goes on. */
  ghost predicate GoesOn(rounds: seq<Round>, i: nat)
    requires i < |rounds|
  {
    var r := rounds[i];
    !r.cancelled && r.planning.Planned? && NewSteps(r.planning.steps, ExecutedBy(rounds, i)) != [] && !Stalls(r.summary)
  }

  ghost predicate GoesOnFrom(rounds: seq<Round>, i: nat, n: nat)
    requires n <= |rounds|
  {
    forall k :: i <= k < n ==> GoesOn(rounds, k)
  }

  /** Iteration `i` finds nothing left to do. */
  ghost predicate Concludes(rounds: seq<Round>, i: nat)
    requires i < |rounds|
  {
    var r := rounds[i];
    !r.cancelled && r.planning.Planned? && forall s :: s in r.planning.steps ==> s in ExecutedBy(rounds, i)
  }

  lemma {:induction false} NothingNewIff(steps: seq<string>, executed: set<string>)
    ensures NewSteps(steps, executed) == [] <==> forall s :: s in steps ==> s in executed
    decreases |steps|
  {
    if steps != [] {
      var before, last := steps[..|steps| - 1], steps[|steps| - 1];
      NothingNewIff(before, executed);
      assert steps == before + [last];
    }
  }

  /** On every exit there is one summary per iteration and one decision per iteration, plus
      exactly one final decision on success; success means that the plan of the next round
      held only steps that were already executed. */
  lemma {:induction false} EveryExit(rounds: seq<Round>, max: int, i: nat, d: seq<Decision>, h: seq<Summary>)
    requires |rounds| >= max >= 1 && i <= max
    ensures
      var out := Loop(rounds, max, i, d, h);
      && out.Returned?
      && var r := out.result;
         && i <= r.iterations <= max
         && |r.history| == |h| + (r.iterations - i) && h <= r.history
         && (forall k :: i <= k < r.iterations ==> r.history[|h| + k - i] == rounds[k].summary)
         && d <= r.decisions && |r.decisions| == |d| + (r.iterations - i) + (if r.success then 1 else 0)
         && (forall k :: |d| <= k < |r.decisions| ==> (r.decisions[k].isFinal <==> r.success && k == |r.decisions| - 1))
         && (r.success <==> r.exit == NothingNew)
         && (r.success ==> r.iterations < max && Concludes(rounds, r.iterations))
    decreases max - i
  {
    if i < max {
      var r := rounds[i];
      if r.planning.Planned? {
        NothingNewIff(r.planning.steps, ExecutedBy(rounds, i));
        if GoesOn(rounds, i) && !r.cancelled {
          EveryExit(rounds, max, i + 1, Log(d, false, r.planning.steps), h + [r.summary]);
        }
      }
    }
  }

  /** The investigation succeeds exactly if some round within the limit concludes and every
      round before it went on. */
  lemma {:induction false} SucceedsIff(rounds: seq<Round>, max: int, i: nat, d: seq<Decision>, h: seq<Summary>)
    requires |rounds| >= max >= 1 && i <= max
    ensures
      var out := Loop(rounds, max, i, d, h);
      out.Returned? && out.result.success <==>
      exists n: nat :: i <= n < max && Concludes(rounds, n) && GoesOnFrom(rounds, i, n)
    decreases max - i
  {
    if i < max {
      var r := rounds[i];
      if r.planning.Planned? {
        NothingNewIff(r.planning.steps, ExecutedBy(rounds, i));
      }
      if GoesOn(rounds, i) {
        SucceedsIff(rounds, max, i + 1, Log(d, false, r.planning.steps), h + [r.summary]);
        assert !Concludes(rounds, i);
        assert forall n: nat :: i < n < max ==> (GoesOnFrom(rounds, i, n) <==> GoesOnFrom(rounds, i + 1, n));
      } else if Concludes(rounds, i) {
        assert GoesOnFrom(rounds, i, i);
      }
    }
  }

  // ---------- The exits, read off the records ----------

  /** Step `id` has run: a record of round `k` shows it completed, failed or skipped. */
  ghost predicate RanIn(rounds: seq<Round>, k: int, id: string) {
    && 0 <= k < |rounds|
    && exists r :: r in rounds[k].summary.records && r.stepId == id &&
                   (r.status == Completed || r.status == Failed || r.status == Skipped)
  }

  ghost predicate RanBefore(rounds: seq<Round>, n: int, id: string) {
    exists k :: 0 <= k < n && RanIn(rounds, k, id)
  }

  /** The plan of round `n` holds only steps that have run before. */
  ghost predicate NothingLeft(rounds: seq<Round>, n: int) {
    && 0 <= n < |rounds| && rounds[n].planning.Planned?
    && forall j :: 0 <= j < |rounds[n].planning.steps| ==> RanBefore(rounds, n, rounds[n].planning.steps[j])
  }

  /** Round `n` is not cancelled, has a plan, and the plan has a step left to run. */
  ghost predicate Executes(rounds: seq<Round>, n: int) {
    0 <= n < |rounds| && !rounds[n].cancelled && rounds[n].planning.Planned? && !NothingLeft(rounds, n)
  }

  /** Nothing completed in round `n` and something failed. */
  ghost predicate FailsOutright(rounds: seq<Round>, n: int) {
    0 <= n < |rounds| && rounds[n].summary.completed == 0 && rounds[n].summary.failed > 0
  }

  /** Rounds from `i` up to `n` execute, and none of them fails outright. */
  ghost predicate RunThrough(rounds: seq<Round>, i: int, n: int) {
    forall k :: i <= k < n ==> Executes(rounds, k) && !FailsOutright(rounds, k)
  }

  /** When the loop, having reached round `i`, ends in the given way after `n` iterations. */
  ghost predicate EndsAs(rounds: seq<Round>, max: int, i: nat, n: nat, exit: Exit)
    requires |rounds| >= max
  {
    match exit
    case CancelledByCaller => i <= n < max && RunThrough(rounds, i, n) && rounds[n].cancelled
    case PlanningFailed => i <= n < max && RunThrough(rounds, i, n) && !rounds[n].cancelled && rounds[n].planning.PlanFailed?
    case NothingNew => i <= n < max && RunThrough(rounds, i, n) && !rounds[n].cancelled && NothingLeft(rounds, n)
    case Halted => i < n <= max && RunThrough(rounds, i, n - 1) && Executes(rounds, n - 1) && FailsOutright(rounds, n - 1)
    case LimitReached => n == max && RunThrough(rounds, i, max)
  }

  lemma SettledIff(rounds: seq<Round>, k: nat, id: string)
    requires k < |rounds|
    ensures id in Settled(rounds[k].summary) <==> RanIn(rounds, k, id)
  {
  }

  lemma {:induction false} ExecutedIff(rounds: seq<Round>, n: nat, id: string)
    requires n <= |rounds|
    ensures id in ExecutedBy(rounds, n) <==> RanBefore(rounds, n, id)
  {
    if n > 0 {
      ExecutedIff(rounds, n - 1, id);
      SettledIff(rounds, n - 1, id);
    }
  }

  lemma NewStepsIff(rounds: seq<Round>, n: nat)
    requires n < |rounds| && rounds[n].planning.Planned?
    ensures NewSteps(rounds[n].planning.steps, ExecutedBy(rounds, n)) == [] <==> NothingLeft(rounds, n)
  {
    var steps := rounds[n].planning.steps;
    NothingNewIff(steps, ExecutedBy(rounds, n));
    forall j | 0 <= j < |steps|
      ensures steps[j] in ExecutedBy(rounds, n) <==> RanBefore(rounds, n, steps[j])
    {
      ExecutedIff(rounds, n, steps[j]);
    }
    assert forall s :: s in steps <==> exists j :: 0 <= j < |steps| && steps[j] == s;
  }

  lemma RunsOn(rounds: seq<Round>, max: int, i: nat, n: nat, exit: Exit)
    requires |rounds| >= max && Executes(rounds, i) && !FailsOutright(rounds, i)
    requires EndsAs(rounds, max, i + 1, n, exit)
    ensures EndsAs(rounds, max, i, n, exit)
  {
  }

  /** The loop ends in the one way, after the one number of iterations, that the records call for. */
  lemma {:induction false} LoopEndsAs(rounds: seq<Round>, max: int, i: nat, d: seq<Decision>, h: seq<Summary>)
    requires |rounds| >= max >= 1 && i <= max
    ensures
      var out := Loop(rounds, max, i, d, h);
      out.Returned? && EndsAs(rounds, max, i, out.result.iterations, out.result.exit)
    decreases max - i
  {
    if i < max && !rounds[i].cancelled && rounds[i].planning.Planned? {
      var r := rounds[i];
      NewStepsIff(rounds, i);
      if NewSteps(r.planning.steps, ExecutedBy(rounds, i)) != [] && !Stalls(r.summary) {
        var d', h' := Log(d, false, r.planning.steps), h + [r.summary];
        LoopEndsAs(rounds, max, i + 1, d', h');
        var out := Loop(rounds, max, i + 1, d', h').result;
        RunsOn(rounds, max, i, out.iterations, out.exit);
      }
    }
  }

  lemma EndsOnce(rounds: seq<Round>, max: int, n: nat, exit: Exit, n': nat, exit': Exit)
    requires |rounds| >= max >= 1 && EndsAs(rounds, max, 0, n, exit) && EndsAs(rounds, max, 0, n', exit')
    ensures n >= n'
  {
    if exit.Halted? {
      assert n - 1 < n' - 1 ==> Executes(rounds, n - 1) && !FailsOutright(rounds, n - 1);
    } else {
      assert n < n' ==> Executes(rounds, n);
    }
  }

  /** No two ways of ending fit the same records, so each exit is taken exactly if its own
      condition holds. */
  lemma {:induction false} OneWayToEnd(rounds: seq<Round>, max: int, n: nat, exit: Exit, n': nat, exit': Exit)
    requires |rounds| >= max >= 1 && EndsAs(rounds, max, 0, n, exit) && EndsAs(rounds, max, 0, n', exit')
    ensures n == n' && exit == exit'
  {
    EndsOnce(rounds, max, n, exit, n', exit');
    EndsOnce(rounds, max, n', exit', n, exit);
  }

  // ---------- Convergence ----------

  /** Round `i` is undisturbed, plans within `universe`, and if it plans anything new then
      its execution settles a step of `universe` that was not settled before. */
  ghost predicate Progresses(rounds: seq<Round>, i: nat, universe: set<string>)
    requires i < |rounds|
  {
    var r, executed := rounds[i], ExecutedBy(rounds, i);
    && !r.cancelled && r.planning.Planned? && !Stalls(r.summary)
    && (forall s :: s in r.planning.steps ==> s in universe)
    && (NewSteps(r.planning.steps, executed) != [] ==>
          exists s :: s in universe && s in Settled(r.summary) && s !in executed)
  }

  lemma OneMoreRound(rounds: seq<Round>, i: nat, universe: set<string>)
    requires i < |rounds| && Progresses(rounds, i, universe) && |universe * ExecutedBy(rounds, i)| >= i
    requires NewSteps(rounds[i].planning.steps, ExecutedBy(rounds, i)) != []
    ensures |universe * ExecutedBy(rounds, i + 1)| >= i + 1 && |universe| >= i + 1
  {
    var more, executed := Settled(rounds[i].summary), ExecutedBy(rounds, i);
    var s :| s in universe && s in more && s !in executed;
    OneMoreSettled(universe, executed, more, s);
    assert ExecutedBy(rounds, i + 1) == executed + more;
  }

  /** With m possible steps and more than m iterations allowed, an investigation in which
      every round makes progress succeeds within m iterations. */
  lemma {:induction false} ProgressMeansSuccess(rounds: seq<Round>, max: int, i: nat, universe: set<string>, d: seq<Decision>, h: seq<Summary>)
    requires |rounds| >= max && |universe| < max && i <= |universe|
    requires forall k :: 0 <= k <= |universe| ==> Progresses(rounds, k, universe)
    requires |universe * ExecutedBy(rounds, i)| >= i
    ensures
      var out := Loop(rounds, max, i, d, h);
      out.Returned? && out.result.success && out.result.iterations <= |universe|
    decreases max - i
  {
    var r, executed := rounds[i], ExecutedBy(rounds, i);
    assert Progresses(rounds, i, universe);
    if NewSteps(r.planning.steps, executed) != [] {
      OneMoreRound(rounds, i, universe);
      ProgressMeansSuccess(rounds, max, i + 1, universe, Log(d, false, r.planning.steps), h + [r.summary]);
    }
  }

  lemma OneMoreSettled(universe: set<string>, executed: set<string>, more: set<string>, s: string)
    requires s in universe && s in more && s !in executed
    ensures |universe * executed| < |universe * (executed + more)| <= |universe|
  {
    SubsetSize(universe * executed + {s}, universe * (executed + more));
    SubsetSize(universe * (executed + more), universe);
  }

  lemma SubsetSize(a: set<string>, b: set<string>)
    requires a <= b
    ensures |a| <= |b|
  {
    assert b == a + (b - a);
  }

  /** The result in terms of the rounds: its exit is the one the records call for, it succeeds
      exactly if nothing is left, and it holds one summary and one decision for every
      iteration, plus a final decision on success. */
  ghost predicate Accounts(rounds: seq<Round>, max: int, decisions: seq<Decision>, r: Result) {
    && |rounds| >= max && EndsAs(rounds, max, 0, r.iterations, r.exit)
    && (r.success <==> r.exit == NothingNew)
    && |r.history| == r.iterations <= |rounds|
    && (forall k :: 0 <= k < r.iterations ==> r.history[k] == rounds[k].summary)
    && |r.decisions| == |decisions| + r.iterations + (if r.success then 1 else 0) && decisions <= r.decisions
    && (forall k :: 0 <= k < r.iterations ==>
          rounds[k].planning.Planned? && r.decisions[|decisions| + k] == Decision(false, rounds[k].planning.steps))
    && (r.success ==> r.decisions[|r.decisions| - 1] == Decision(true, []))
  }

  lemma {:induction false} LoopDecides(rounds: seq<Round>, max: int, i: nat, d: seq<Decision>, h: seq<Summary>)
    requires |rounds| >= max >= 1 && i <= max
    ensures
      var out := Loop(rounds, max, i, d, h);
      && out.Returned? && i <= out.result.iterations <= max
      && |out.result.decisions| == |d| + (out.result.iterations - i) + (if out.result.success then 1 else 0) && d <= out.result.decisions
      && (forall k :: i <= k < out.result.iterations ==>
            rounds[k].planning.Planned? && out.result.decisions[|d| + k - i] == Decision(false, rounds[k].planning.steps))
      && (out.result.success ==> out.result.decisions[|out.result.decisions| - 1] == Decision(true, []))
    decreases max - i
  {
    if i < max && GoesOn(rounds, i) {
      var r := rounds[i];
      LoopDecides(rounds, max, i + 1, Log(d, false, r.planning.steps), h + [r.summary]);
    }
  }

  lemma LoopAccounts(rounds: seq<Round>, max: int, decisions: seq<Decision>)
    requires |rounds| >= max >= 1
    ensures
      var out := Loop(rounds, max, 0, decisions, []);
      out.Returned? && Accounts(rounds, max, decisions, out.result)
  {
    LoopEndsAs(rounds, max, 0, decisions, []);
    LoopSummaries(rounds, max, decisions);
    LoopDecides(rounds, max, 0, decisions, []);
  }

  lemma LoopSummaries(rounds: seq<Round>, max: int, decisions: seq<Decision>)
    requires |rounds| >= max >= 1
    ensures
      var out := Loop(rounds, max, 0, decisions, []);
      && out.Returned? && |out.result.history| == out.result.iterations <= |rounds|
      && (out.result.success <==> out.result.exit == NothingNew)
      && forall k :: 0 <= k < out.result.iterations ==> out.result.history[k] == rounds[k].summary
  {
    EveryExit(rounds, max, 0, decisions, []);
  }

  /** The loop as written. */
  method Investigate(rounds: seq<Round>, max: int, decisions: seq<Decision>) returns (out: Outcome)
    requires |rounds| >= max
    ensures out == Loop(rounds, max, 0, decisions, [])
    ensures max >= 1 ==> out.Returned? && Accounts(rounds, max, decisions, out.result)
    ensures max == 0 ==> out == Crashed
    ensures max < 0 ==> out == Returned(Result(decisions, 0, [], false, LimitReached))
  {
    if max >= 1 {
      LoopAccounts(rounds, max, decisions);
    }
    var d, iteration := decisions, 0;
    var history: seq<Summary> := [];
    var executed: set<string> := {};
    var newSteps: Option<seq<string>> := None;
    while iteration < max
      invariant 0 <= iteration <= |rounds| && (iteration <= max || iteration == 0)
      invariant executed == ExecutedBy(rounds, iteration)
      invariant if iteration == 0 then newSteps.None? else newSteps.Some? && newSteps.value != []
      invariant Loop(rounds, max, 0, decisions, []) == Loop(rounds, max, iteration, d, history)
      decreases max - iteration
    {
      var r := rounds[iteration];
      if r.cancelled {
        return Returned(Result(d, iteration, history, false, CancelledByCaller));
      }
      if r.planning.PlanFailed? {
        return Returned(Result(d, iteration, history, false, PlanningFailed));
      }
      var steps := r.planning.steps;
      newSteps := Some(NewSteps(steps, executed));
      if newSteps.value == [] {
        d := Log(d, true, []);
        break;
      }
      d := Log(d, false, steps);
      history := history + [r.summary];
      executed := executed + Settled(r.summary);
      iteration := iteration + 1;
      if r.summary.completed == 0 && r.summary.failed > 0 {
        return Returned(Result(d, iteration, history, false, Halted));
      }
    }
    if iteration == max && newSteps.None? {
      return Crashed;
    }
    var success := iteration < max || (iteration == max && newSteps.value == []);
    return Returned(Result(d, iteration, history, success, if success then NothingNew else LimitReached));
  }
}
