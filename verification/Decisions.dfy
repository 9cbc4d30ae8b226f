/**
  What makes a switch happen: each stage of the evaluation leads to the next exactly when it has cause to, in every
  interleaving (pkg/adaptive/orchestrator.go:154-288).
 */
module Decisions {
  import opened CacheTypes
  import opened CostBenefit
  import opened Metrics
  import opened Pattern
  import opened Protocol
  import opened Trend
  import opened Window

  /** Some measured policy promises more, over the current one at its recorded ratio, than the threshold. */
  ghost predicate BetterMeasured(c: Config, s: Sys) {
    && s.currentPolicy in s.entries && s.history != []
    && exists q :: q in s.entries && q != s.currentPolicy
         && Analyze(c.params, s.currentPolicy, q, s.entries[s.currentPolicy].missRatio, s.entries[q].missRatio,
                    Latest(s).cacheSize).netBenefit > c.params.threshold
  }

  /** How often each stage was entered and how often it had cause to go on. */
  datatype Counts = Counts(
    cooled: nat, asked: nat, answered: nat, saved: nat, detected: nat, judged: nat, caused: nat, chosen: nat, due: nat,
    commanded: nat, accepted: nat, updated: nat)

  const NOTHING: Counts := Counts(0, 0, 0, 0, 0, 0, 0, 0, 0, 0, 0, 0)

  function Bit(b: bool): nat {
    if b then 1 else 0
  }

  ghost function Tally(c: Config, s: Sys, step: Step, k: Counts): Counts
    requires Enabled(c, s, step)
  {
    match step
    case CheckCooldown(t) => k.(cooled := k.cooled + Bit(s.clock - s.lastSwitchTime >= c.stabilityPeriod))
    case AskStatus(t, reply) => k.(asked := k.asked + 1, answered := k.answered + Bit(reply.Some?))
    case Save(_) => k.(saved := k.saved + 1)
    case Detect(_) => k.(detected := k.detected + 1)
    case Judge(t) =>
      k.(judged := k.judged + 1,
         caused := k.caused
             + Bit(s.threads[t].shift || Score(c.thresholds, s.history, s.currentPolicy).indicatesDegradation))
    case Choose(_, _) => k.(chosen := k.chosen + 1, due := k.due + Bit(BetterMeasured(c, s)))
    case Command(_, accepted) => k.(commanded := k.commanded + 1, accepted := k.accepted + Bit(accepted))
    case Update(_) => k.(updated := k.updated + 1)
    case _ => k
  }

  ghost function CountsOf(c: Config, s: Sys, steps: seq<Step>): Counts
    requires Legal(c, s, steps)
  {
    if steps == [] then NOTHING
    else
      var front := steps[..|steps| - 1];
      Tally(c, After(c, s, front), steps[|steps| - 1], CountsOf(c, s, front))
  }

  /** The one goroutine that evaluates, if any. */
  ghost function Evaluating(s: Sys): Option<Pc> {
    if t :| t in s.threads then Some(s.threads[t]) else None
  }

  /** Every cause to go on was followed up, or the goroutine is just about to. */
  ghost predicate FollowedUp(s: Sys, k: Counts) {
    var e := Evaluating(s);
    && k.cooled == k.asked + Bit(e.Some? && e.value.PastCooldown?)
    && k.answered == k.saved + Bit(e.Some? && e.value.HasStatus?)
    && k.saved == k.detected + Bit(e.Some? && e.value.Collected?)
    && k.detected == k.judged + Bit(e.Some? && e.value.ShiftKnown?)
    && k.caused == k.chosen + Bit(e.Some? && e.value.NeedsEvaluation?)
    && k.due == k.commanded + Bit(e.Some? && e.value.Switching?)
    && k.accepted == k.updated + Bit(e.Some? && e.value.Commanded?)
  }

  lemma EvaluatingIs(c: Config, s: Sys, t: nat)
    requires ThreadsOk(c, s) && t in s.threads
    ensures Evaluating(s) == Some(s.threads[t])
    ensures forall pc :: Evaluating(Goto(s, t, pc)) == Some(pc)
  {
    hide PcOk, UnitRatios, Last;
    forall pc
      ensures Evaluating(Goto(s, t, pc)) == Some(pc)
    {
      var s' := Goto(s, t, pc);
      assert t in s'.threads && forall u | u in s'.threads :: u == t;
    }
  }

  /** The choice is what the measured policies make it. */
  lemma ChoiceIsDue(c: Config, s: Sys, t: nat, best: Option<Analysis>)
    requires c.params.threshold >= -1.0
    requires ThreadsOk(c, s) && Enabled(c, s, Choose(t, best))
    ensures Apply(c, s, Choose(t, best)).threads[t].Switching? <==> BetterMeasured(c, s)
    ensures BetterMeasured(c, s) ==>
              && best.Some? && best.value == Apply(c, s, Choose(t, best)).threads[t].best
              && best.value.candidatePolicy in s.entries && best.value.candidatePolicy != s.currentPolicy
              && forall q | q in s.entries && q != s.currentPolicy ::
                   Analyze(c.params, s.currentPolicy, q, s.entries[s.currentPolicy].missRatio, s.entries[q].missRatio,
                           Latest(s).cacheSize).netBenefit <= best.value.netBenefit
  {
    hide ShiftOf, Score, Samples, Analyze;
    var pc := s.threads[t];
    assert PcOk(c, s, pc);
    var ratio, candidates, size := s.entries[s.currentPolicy].missRatio, CandidatesOf(s.entries), Latest(s).cacheSize;
    ChoiceIsComplete(c.params, s.currentPolicy, ratio, candidates, size, best);
    if BetterMeasured(c, s) {
      var q :| q in s.entries && q != s.currentPolicy
               && Analyze(c.params, s.currentPolicy, q, ratio, s.entries[q].missRatio,
                   size).netBenefit > c.params.threshold;
      assert Analyze(c.params, s.currentPolicy, q, ratio, candidates[q], size).netBenefit > c.params.threshold;
      forall p | p in s.entries && p != s.currentPolicy
        ensures Analyze(c.params, s.currentPolicy, p, ratio, s.entries[p].missRatio,
            size).netBenefit <= best.value.netBenefit
      {
        assert candidates[p] == s.entries[p].missRatio;
      }
    }
    if q :| q in candidates && q != s.currentPolicy
            && Analyze(c.params, s.currentPolicy, q, ratio, candidates[q], size).netBenefit > c.params.threshold {
      assert Analyze(c.params, s.currentPolicy, q, ratio, s.entries[q].missRatio, size).netBenefit > c.params.threshold;
    }
  }

  lemma EarlyStepFollows(c: Config, s: Sys, step: Step, k: Counts)
    requires ThreadsOk(c, s) && Enabled(c, s, step) && FollowedUp(s, k)
    requires step.Fire? || step.CheckCooldown? || step.AskStatus? || step.Save? || step.Detect?
    ensures FollowedUp(Apply(c, s, step), Tally(c, s, step, k))
  {
    hide ShiftOf, Score, Samples, Push, Store, Last, UnitRatios, BetterMeasured, IsChoice;
    EvaluatingIs(c, s, step.t);
    assert PcOk(c, s, s.threads[step.t]);
    EvaluatingAfter(c, s, step);
    hide Evaluating;
  }

  lemma JudgeFollows(c: Config, s: Sys, t: nat, k: Counts)
    requires ThreadsOk(c, s) && Enabled(c, s, Judge(t)) && FollowedUp(s, k)
    ensures FollowedUp(Apply(c, s, Judge(t)), Tally(c, s, Judge(t), k))
  {
    EvaluatingIs(c, s, t);
    assert PcOk(c, s, s.threads[t]);
    EvaluatingAfter(c, s, Judge(t));
    hide Score, Samples, Evaluating, ThreadsOk, PcOk;
  }

  lemma ChooseFollows(c: Config, s: Sys, step: Step, k: Counts)
    requires ThreadsOk(c, s) && Enabled(c, s, step) && FollowedUp(s, k) && c.params.threshold >= -1.0 && step.Choose?
    ensures FollowedUp(Apply(c, s, step), Tally(c, s, step, k))
  {
    hide BetterMeasured, IsChoice, Analyze, Evaluating, ThreadsOk, PcOk;
    EvaluatingIs(c, s, step.t);
    ChoiceIsDue(c, s, step.t, step.best);
    EvaluatingAfter(c, s, step);
  }

  lemma LateStepFollows(c: Config, s: Sys, step: Step, k: Counts)
    requires ThreadsOk(c, s) && Enabled(c, s, step) && FollowedUp(s, k)
    requires step.Command? || step.Update? || step.Reset? || step.SeeStop?
    ensures FollowedUp(Apply(c, s, step), Tally(c, s, step, k))
  {
    hide Evaluating, ThreadsOk, PcOk;
    EvaluatingIs(c, s, step.t);
    EvaluatingAfter(c, s, step);
  }

  /** A step of goroutine t leaves t the one that evaluates, where the step put it. */
  lemma EvaluatingAfter(c: Config, s: Sys, step: Step)
    requires ThreadsOk(c, s) && Enabled(c, s, step)
    requires !step.Elapse? && !step.Access? && !step.Start? && !step.Stop? && !step.Finish?
    ensures var s' := Apply(c, s, step); step.t in s'.threads && Evaluating(s') == Some(s'.threads[step.t])
  {
    hide ShiftOf, Score, Samples, Push, Store, Last, IsChoice, Analyze, Evaluating;
    StepKeepsThreads(c, s, step);
    EvaluatingIs(c, Apply(c, s, step), step.t);
  }

  lemma OtherStepFollows(c: Config, s: Sys, step: Step, k: Counts)
    requires ThreadsOk(c, s) && Enabled(c, s, step) && FollowedUp(s, k)
    requires step.Elapse? || step.Access? || step.Start? || step.Stop? || step.Finish?
    ensures FollowedUp(Apply(c, s, step), Tally(c, s, step, k))
  {
    hide ShiftOf, Score, Samples, Push, Last, UnitRatios, BetterMeasured, IsChoice, Analyze;
    if step.Finish? {
      EvaluatingIs(c, s, step.t);
      OnlyThread(c, s, step.t);
    } else if step.Start? && !s.isRunning {
      assert s.threads == map[];
      var s' := Apply(c, s, step);
      assert forall t | t in s'.threads :: t == step.t;
    }
  }

  lemma StepFollows(c: Config, s: Sys, step: Step, k: Counts)
    requires ThreadsOk(c, s) && Enabled(c, s, step) && FollowedUp(s, k) && c.params.threshold >= -1.0
    ensures FollowedUp(Apply(c, s, step), Tally(c, s, step, k))
  {
    hide ThreadsOk, FollowedUp, Apply, Tally, Enabled;
    if step.Fire? || step.CheckCooldown? || step.AskStatus? || step.Save? || step.Detect? {
      EarlyStepFollows(c, s, step, k);
    } else if step.Elapse? || step.Access? || step.Start? || step.Stop? || step.Finish? {
      OtherStepFollows(c, s, step, k);
    } else if step.Judge? {
      JudgeFollows(c, s, step.t, k);
    } else if step.Choose? {
      ChooseFollows(c, s, step, k);
    } else {
      LateStepFollows(c, s, step, k);
    }
  }

  lemma UpdatesAreSwitches(c: Config, s: Sys, step: Step, k: Counts)
    requires Enabled(c, s, step) && |s.switches| == k.updated
    ensures |Apply(c, s, step).switches| == Tally(c, s, step, k).updated
  {
    hide ShiftOf, Score, Samples, Push, Store, BetterMeasured, IsChoice, Analyze;
  }

  /**
    The evaluation is exact, in every interleaving. Each check that found the stability period over was followed by a
    question to the server, each answer by a measurement, shift detection and trend; each of those that found a shift
    or a degradation by a choice; each choice that found a policy promising more than the threshold by a command; each
    accepted command by a switch; and nothing else led there. Only the goroutine's present stage may be still to come.
   */
  lemma {:induction false} EvaluationIsExact(c: Config, s0: Sys, steps: seq<Step>)
    requires Init(c, s0) && Legal(c, s0, steps) && c.params.threshold >= -1.0
    ensures FollowedUp(After(c, s0, steps), CountsOf(c, s0, steps))
    ensures |After(c, s0, steps).switches| == CountsOf(c, s0, steps).updated
  {
    if steps == [] {
    } else {
      var front := steps[..|steps| - 1];
      EvaluationIsExact(c, s0, front);
      InitInv(c, s0);
      RunsKeepInv(c, s0, front);
      hide Init, FollowedUp, Apply, Tally, Enabled, ThreadsOk, HistoryOk;
      var s, k := After(c, s0, front), CountsOf(c, s0, front);
      StepFollows(c, s, steps[|steps| - 1], k);
      UpdatesAreSwitches(c, s, steps[|steps| - 1], k);
    }
  }

  lemma InitInv(c: Config, s: Sys)
    requires Init(c, s)
    ensures Inv(c, s)
  {
  }

  // ----- shifts need new accesses -----

  /** Access steps since the last switch of the run; before the first, also those of the log it started with. */
  ghost function AccessesSinceSwitch(initial: nat, steps: seq<Step>): nat {
    if steps == [] then initial
    else
      var before := AccessesSinceSwitch(initial, steps[..|steps| - 1]);
      match steps[|steps| - 1]
      case Access(_) => before + 1
      case Update(_) => 0
      case _ => before
  }

  ghost predicate SawShift(pc: Pc) {
    match pc
    case ShiftKnown(_, _, shift) => shift
    case NeedsEvaluation(_, _, shift, _) => shift
    case Switching(_, _, shift, _) => shift
    case Commanded(_, _, shift, _) => shift
    case _ => false
  }

  /**
    Unless it is about to be reset, the log holds accesses since the last switch; a goroutine that saw a shift saw a
    full one.
   */
  ghost predicate FreshLog(c: Config, s: Sys, accesses: nat) {
    && (|s.log| <= accesses || exists t :: t in s.threads && s.threads[t].Updated?)
    && forall t | t in s.threads && SawShift(s.threads[t]) :: accesses >= c.windowSize
  }

  lemma StepKeepsFreshLog(c: Config, s: Sys, step: Step, accesses: nat)
    requires ThreadsOk(c, s) && Enabled(c, s, step) && FreshLog(c, s, accesses)
    ensures FreshLog(c, Apply(c, s, step), if step.Access? then accesses + 1 else if step.Update? then 0 else accesses)
  {
    if step.Detect? {
      ShiftNeedsWindow(c.sqrt, s.log, c.windowSize);
    }
    hide ShiftOf, Score, Samples, Store, PcOk, IsChoice, Analyze, UnitRatios, Last;
    var s' := Apply(c, s, step);
    if !step.Elapse? && !step.Access? && !step.Start? && !step.Stop? {
      OnlyThread(c, s, step.t);
      if !step.Finish? {
        assert s'.threads == map[step.t := s'.threads[step.t]];
      }
    } else if step.Access? {
      assert |Push(s.log, c.windowSize, step.access)| <= |s.log| + 1;
    }
  }

  lemma {:induction false} RunKeepsFreshLog(c: Config, s0: Sys, steps: seq<Step>)
    requires Init(c, s0) && Legal(c, s0, steps)
    ensures FreshLog(c, After(c, s0, steps), AccessesSinceSwitch(|s0.log|, steps))
  {
    if steps == [] {
    } else {
      var front := steps[..|steps| - 1];
      RunKeepsFreshLog(c, s0, front);
      InitInv(c, s0);
      RunsKeepInv(c, s0, front);
      hide Init, Apply, Enabled, ThreadsOk, HistoryOk, FreshLog;
      StepKeepsFreshLog(c, After(c, s0, front), steps[|steps| - 1], AccessesSinceSwitch(|s0.log|, front));
    }
  }

  ghost function AccessSteps(steps: seq<Step>, from: nat, to: nat): set<int>
    requires to <= |steps|
  {
    set i | from <= i < to && steps[i].Access?
  }

  lemma OneMoreStep(steps: seq<Step>, from: nat, to: nat)
    requires from < to <= |steps|
    ensures |AccessSteps(steps, from, to)| == |AccessSteps(steps, from, to - 1)| + if steps[to - 1].Access? then 1 else 0
  {
    var before := AccessSteps(steps, from, to - 1);
    if steps[to - 1].Access? {
      assert AccessSteps(steps, from, to) == before + {to - 1};
    } else {
      assert AccessSteps(steps, from, to) == before;
    }
  }

  lemma {:induction false} AccessesAreSteps(initial: nat, steps: seq<Step>, a: nat, b: nat)
    requires a < b <= |steps| && steps[a].Update? && forall i | a < i < b :: !steps[i].Update?
    ensures AccessesSinceSwitch(initial, steps[..b]) == |AccessSteps(steps, a + 1, b)|
    decreases b
  {
    assert steps[..b][..b - 1] == steps[..b - 1];
    if b == a + 1 {
      assert AccessSteps(steps, a + 1, b) == {};
    } else {
      AccessesAreSteps(initial, steps, a, b - 1);
      OneMoreStep(steps, a + 1, b);
      hide AccessSteps;
    }
  }

  /** The step records a switch that a shift has caused. */
  ghost predicate ShiftSwitch(c: Config, s: Sys, steps: seq<Step>, n: nat)
    requires n < |steps| && Legal(c, s, steps[..n])
  {
    && Enabled(c, After(c, s, steps[..n]), steps[n]) && steps[n].Update?
    && var switches := Apply(c, After(c, s, steps[..n]), steps[n]).switches;
       switches != [] && switches[|switches| - 1].shift
  }

  lemma ShiftSwitchSaw(c: Config, s: Sys, steps: seq<Step>, n: nat)
    requires n < |steps| && Legal(c, s, steps[..n]) && ShiftSwitch(c, s, steps, n)
    ensures steps[n].t in After(c, s, steps[..n]).threads && SawShift(After(c, s, steps[..n]).threads[steps[n].t])
  {
    hide Legal, After;
  }

  /**
    Between two consecutive switches of a run, of which the second was caused by a shift, lie at least as many
    accesses as the window holds: a switch leaves nothing in the window.
   */
  lemma {:induction false} ShiftsNeedAccesses(c: Config, s0: Sys, steps: seq<Step>, a: nat, b: nat)
    requires a < b < |steps| && steps[a].Update? && forall i | a < i < b :: !steps[i].Update?
    requires Init(c, s0) && Legal(c, s0, steps[..b]) && ShiftSwitch(c, s0, steps, b)
    ensures |AccessSteps(steps, a + 1, b)| >= c.windowSize
  {
    ShiftSwitchSaw(c, s0, steps, b);
    RunKeepsFreshLog(c, s0, steps[..b]);
    hide Init, Legal, After, Apply, ShiftSwitch;
    AccessesAreSteps(|s0.log|, steps, a, b);
  }
}
