/** What holds over every run of the orchestrator, whatever the interleaving. */
module Guarantees {
  import opened Arith
  import opened CacheTypes
  import opened CostBenefit
  import opened Metrics
  import opened Pattern
  import opened Protocol
  import opened Trend
  import opened Window

  lemma InitHolds(c: Config, s: Sys)
    requires Init(c, s)
    ensures Inv(c, s)
  {
  }

  lemma {:induction false} RunHistory(c: Config, s0: Sys, steps: seq<Step>)
    requires Init(c, s0) && Legal(c, s0, steps)
    ensures HistoryOk(c, After(c, s0, steps)) && ThreadsOk(c, After(c, s0, steps))
  {
    InitHolds(c, s0);
    RunsKeepInv(c, s0, steps);
  }

  // ----- safety of the split critical section -----

  /** The goroutine's local idea of the current policy. */
  ghost function LocalPolicy(pc: Pc): Option<Policy> {
    match pc
    case HasRead(current, _) => Some(current)
    case PastCooldown(current) => Some(current)
    case HasStatus(current, _) => Some(current)
    case Collected(current, _) => Some(current)
    case ShiftKnown(current, _, _) => Some(current)
    case NeedsEvaluation(current, _, _, _) => Some(current)
    case Switching(best, _, _, _) => Some(best.currentPolicy)
    case Commanded(best, _, _, _) => Some(best.currentPolicy)
    case _ => None
  }

  /**
    At most one evaluation loop is active and isRunning says exactly whether one is. What a loop read before it
    released the lock is still true when it acts on it. The server runs the current policy, except between an
    accepted command and the state update, when it runs the policy about to be written.
   */
  lemma {:induction false} ConcurrentSafety(c: Config, s0: Sys, steps: seq<Step>)
    requires Init(c, s0) && Legal(c, s0, steps)
    ensures var s := After(c, s0, steps);
            && |s.threads| <= 1
            && (s.isRunning <==> |s.threads| == 1)
            && (forall t | t in s.threads :: LocalPolicy(s.threads[t]).Some? ==>
                LocalPolicy(s.threads[t]).value == s.currentPolicy)
            && (forall t | t in s.threads && s.threads[t].HasRead? :: s.threads[t].last == s.lastSwitchTime)
            && (forall t | t in s.threads && s.threads[t].Commanded? :: s.server == s.threads[t].best.candidatePolicy)
            && ((forall t | t in s.threads :: !s.threads[t].Commanded?) ==> s.server == s.currentPolicy)
  {
    InitHolds(c, s0);
    RunsKeepInv(c, s0, steps);
    var s := After(c, s0, steps);
    if t :| t in s.threads {
      OnlyThread(c, s, t);
      assert PcOk(c, s, s.threads[t]);
    }
  }

  // ----- spacing -----

  /** n stability periods. */
  function Periods(n: nat, period: Time): Time {
    if n == 0 then 0 else Periods(n - 1, period) + period
  }

  lemma {:induction false} PeriodsProduct(n: nat, period: Time)
    ensures Periods(n, period) == n * period
  {
    if n == 0 {
    } else {
      PeriodsProduct(n - 1, period);
      assert n * period == (n - 1) * period + period;
    }
  }

  lemma {:induction false} SpacedInterval(w: seq<Switch>, start: Time, period: Time, i: nat, j: nat)
    requires Spaced(w, start, period) && i <= j <= |w|
    ensures SwitchTime(w, start, j) - SwitchTime(w, start, i) >= Periods(j - i, period)
  {
    if i == j {
    } else {
      SpacedInterval(w, start, period, i, j - 1);
      assert w[j - 1].at - SwitchTime(w, start, j - 1) >= period;
    }
  }

  lemma SpacedIn(w: seq<Switch>, start: Time, period: Time)
    requires Spaced(w, start, period)
    ensures Periods(|w|, period) <= SwitchTime(w, start, |w|) - start
    ensures forall i, j | 0 <= i <= j < |w| :: Periods(j - i, period) <= w[j].at - w[i].at
  {
    SpacedInterval(w, start, period, 0, |w|);
    forall i, j | 0 <= i <= j < |w|
      ensures Periods(j - i, period) <= w[j].at - w[i].at
    {
      SpacedInterval(w, start, period, i + 1, j + 1);
    }
  }

  /** The same as products. */
  lemma {:induction false} SpacedTimes(w: seq<Switch>, start: Time, period: Time)
    requires Spaced(w, start, period)
    ensures |w| * period <= SwitchTime(w, start, |w|) - start
    ensures forall i, j | 0 <= i <= j < |w| :: (j - i) * period <= w[j].at - w[i].at
  {
    SpacedIn(w, start, period);
    hide Spaced, SwitchTime;
    PeriodsProduct(|w|, period);
    forall i, j | 0 <= i <= j < |w|
      ensures (j - i) * period <= w[j].at - w[i].at
    {
      PeriodsProduct(j - i, period);
    }
  }

  /** Any j - i consecutive switches take at least that many stability periods, and so do all switches since Initialize. */
  lemma {:induction false} SwitchSpacing(c: Config, s0: Sys, steps: seq<Step>)
    requires Init(c, s0) && Legal(c, s0, steps)
    ensures var s := After(c, s0, steps);
            && |s.switches| * c.stabilityPeriod <= s.clock - s.initialTime
            && forall i, j | 0 <= i <= j < |s.switches| ::
                 (j - i) * c.stabilityPeriod <= s.switches[j].at - s.switches[i].at
  {
    RunHistory(c, s0, steps);
    hide Legal, After, HistoryOk, ThreadsOk, Spaced, SwitchTime;
    var s := After(c, s0, steps);
    LastSwitchPast(c, s);
    SpacedTimes(s.switches, s.initialTime, c.stabilityPeriod);
  }

  lemma LastSwitchPast(c: Config, s: Sys)
    requires HistoryOk(c, s) && ThreadsOk(c, s)
    ensures Spaced(s.switches, s.initialTime, c.stabilityPeriod)
    ensures SwitchTime(s.switches, s.initialTime, |s.switches|) <= s.clock
  {
  }

  lemma GoodHistory(c: Config, s: Sys)
    requires HistoryOk(c, s)
    ensures Good(c, s.switches) && Returns(s.switches)
    ensures s.currentPolicy == PolicyAfter(s.switches, s.initialPolicy, |s.switches|)
  {
  }

  // ----- causes -----

  /**
    Every switch changes the policy and had a cause: a detected shift, and then a full window was recorded since
    the last reset; or the trend of at least minSamples snapshots taken under the policy that was left.
   */
  lemma SwitchCauses(c: Config, s0: Sys, steps: seq<Step>, i: nat)
    requires Init(c, s0) && Legal(c, s0, steps) && i < |After(c, s0, steps).switches|
    ensures var w := After(c, s0, steps).switches[i];
            && w.from != w.to
            && (w.accesses < c.windowSize ==> !w.shift && w.samples >= c.thresholds.minSamples)
  {
    InitHolds(c, s0);
    RunsKeepInv(c, s0, steps);
    assert GoodSwitch(c, After(c, s0, steps).switches[i]);
  }

  // ----- hysteresis -----

  /** Costs are not negative, and neither is the threshold. */
  ghost predicate Sound(p: Params) {
    NonNegative(p.weights) && 0.0 <= p.threshold
  }

  /** What every recommended gain exceeds: the threshold and the part of the cost that no cache size lowers. */
  function Margin(p: Params): real {
    p.threshold + Mul(p.weights.degradation, DEGRADATION_COST)
  }

  /** With the default weights that is 0.008 above the threshold. */
  lemma DefaultMargin(p: Params)
    requires p.weights == DEFAULT_WEIGHTS
    ensures Margin(p) == p.threshold + 0.008
  {
    assert Mul(0.4, 0.02) == 0.008;
  }

  lemma CostAtLeast(p: Params, cacheSize: nat)
    requires NonNegative(p.weights)
    ensures EstimateSwitchingCost(p, cacheSize).totalCost >= Mul(p.weights.degradation, DEGRADATION_COST) >= 0.0
  {
    CostMonotone(p, 0, cacheSize);
    assert TimeCost(0) == 0.0 && MemoryCost(p.maxMemory, 0) == 0.0;
    ProductSign(p.weights.degradation, DEGRADATION_COST);
  }

  ghost function EnteredAt(w: seq<Switch>, i: nat, j: nat): real
    requires i <= j <= |w|
  {
    if i == j then 1.0 else Mul(EnteredAt(w, i, j - 1), w[j - 1].target)
  }

  ghost function LeftAt(w: seq<Switch>, i: nat, j: nat): real
    requires i <= j <= |w|
  {
    if i == j then 1.0 else Mul(LeftAt(w, i, j - 1), w[j - 1].live)
  }

  function Power(x: real, n: nat): real {
    if n == 0 then 1.0 else Mul(Power(x, n - 1), x)
  }

  /** Each switch enters at less than (1 - margin) times the ratio it leaves. */
  lemma EachSwitchGains(c: Config, w: Switch)
    requires Sound(c.params) && GoodSwitch(c, w)
    ensures w.live > 0.0 && w.target < Mul(1.0 - Margin(c.params), w.live)
  {
    CostAtLeast(c.params, w.cacheSize);
    GainAbove(w.live, w.target, Margin(c.params));
  }

  lemma ProductBelow(x: real, y: real, a: real, b: real)
    requires 0.0 <= x < y && 0.0 <= a < b
    ensures Mul(x, a) < Mul(y, b)
  {
    Monotone(x, y, b);
    Monotone(a, b, x);
  }

  lemma Regroup(p: real, l: real, q: real, x: real)
    ensures Mul(Mul(p, l), Mul(q, x)) == Mul(Mul(p, q), Mul(l, x))
  {
  }

  lemma {:induction false} ChainOfGains(c: Config, w: seq<Switch>, i: nat, j: nat)
    requires Sound(c.params) && Good(c, w) && i < j <= |w|
    ensures 0.0 <= EnteredAt(w, i, j) < Mul(Power(1.0 - Margin(c.params), j - i), LeftAt(w, i, j))
  {
    var q, x := 1.0 - Margin(c.params), w[j - 1];
    EachSwitchGains(c, x);
    if j == i + 1 {
      assert EnteredAt(w, i, i) == 1.0 && LeftAt(w, i, i) == 1.0;
      assert Power(q, j - i) == Mul(Power(q, 0), q) == q;
    } else {
      ChainOfGains(c, w, i, j - 1);
      ProductBelow(EnteredAt(w, i, j - 1), Mul(Power(q, j - 1 - i), LeftAt(w, i, j - 1)), x.target, Mul(q, x.live));
      Regroup(Power(q, j - 1 - i), LeftAt(w, i, j - 1), q, x.live);
      ProductSign(EnteredAt(w, i, j - 1), x.target);
    }
  }

  lemma {:induction false} LeftSplit(w: seq<Switch>, i: nat, j: nat)
    requires i < j <= |w|
    ensures LeftAt(w, i, j) == Mul(w[i].live, LeftAt(w, i + 1, j))
  {
    if j == i + 1 {
    } else {
      LeftSplit(w, i, j - 1);
      Associate(w[i].live, LeftAt(w, i + 1, j - 1), w[j - 1].live);
    }
  }

  lemma Associate(x: real, y: real, z: real)
    ensures Mul(Mul(x, y), z) == Mul(x, Mul(y, z))
  {
  }

  lemma CancelBelow(x: real, y: real, p: real, z: real)
    requires z > 0.0 && Mul(x, z) < Mul(p, Mul(z, y))
    ensures x < Mul(p, y)
  {
    assert Mul(p, Mul(z, y)) == Mul(Mul(p, y), z);
    if x >= Mul(p, y) {
      Monotone(Mul(p, y), x, z);
    }
  }

  lemma NoThrashingIn(c: Config, w: seq<Switch>, i: nat, j: nat)
    requires Sound(c.params) && Good(c, w) && Returns(w)
    requires i < j < |w| && w[j].to == w[i].from && Departed(w, i, j)
    ensures EnteredAt(w, i, j) < Mul(Power(1.0 - Margin(c.params), j - i + 1), LeftAt(w, i + 1, j + 1))
  {
    ChainOfGains(c, w, i, j + 1);
    LeftSplit(w, i, j + 1);
    assert w[j].target == w[i].live;
    EachSwitchGains(c, w[i]);
    CancelBelow(EnteredAt(w, i, j), LeftAt(w, i + 1, j + 1), Power(1.0 - Margin(c.params), j + 1 - i), w[i].live);
  }

  /**
    No thrashing: whenever a run leaves a policy with switch i and first returns to it with switch j, the policies
    in force in between were left with miss ratios whose product exceeds the product of the ratios they were
    entered with by a factor of more than 1 / (1 - margin)^(j - i + 1).
   */
  lemma {:induction false} NoThrashing(c: Config, s0: Sys, steps: seq<Step>, i: nat, j: nat)
    requires Sound(c.params) && Init(c, s0) && Legal(c, s0, steps)
    requires var w := After(c, s0, steps).switches;
             i < j < |w| && w[j].to == w[i].from && Departed(w, i, j)
    ensures var w := After(c, s0, steps).switches;
            EnteredAt(w, i, j) < Mul(Power(1.0 - Margin(c.params), j - i + 1), LeftAt(w, i + 1, j + 1))
  {
    RunHistory(c, s0, steps);
    NoThrashingIn(c, After(c, s0, steps).switches, i, j);
  }

  lemma HysteresisIn(c: Config, w: seq<Switch>, i: nat)
    requires Sound(c.params) && Good(c, w) && Returns(w)
    requires i + 1 < |w| && w[i + 1].to == w[i].from
    ensures w[i].target < Mul(Square(1.0 - Margin(c.params)), w[i + 1].live)
  {
    NoThrashingIn(c, w, i, i + 1);
    var q := 1.0 - Margin(c.params);
    assert EnteredAt(w, i, i) == 1.0 && LeftAt(w, i + 1, i + 1) == 1.0;
    assert Power(q, 2) == Mul(Mul(Power(q, 0), q), q) == Square(q);
  }

  /** A switch A to B followed by B to A: B's live ratio has risen above (recorded ratio of B) / (1 - margin)^2. */
  lemma Hysteresis(c: Config, s0: Sys, steps: seq<Step>, i: nat)
    requires Sound(c.params) && Init(c, s0) && Legal(c, s0, steps)
    requires var w := After(c, s0, steps).switches; i + 1 < |w| && w[i + 1].to == w[i].from
    ensures var w := After(c, s0, steps).switches;
            w[i].to == w[i + 1].from && w[i].target < Mul(Square(1.0 - Margin(c.params)), w[i + 1].live)
  {
    RunHistory(c, s0, steps);
    var s := After(c, s0, steps);
    HysteresisIn(c, s.switches, i);
    assert s.switches[i + 1].from == PolicyAfter(s.switches, s.initialPolicy, i + 1);
  }

  // ----- stationary workload -----

  /** Every status reply of the run reports the same miss ratio for the same policy. */
  ghost predicate Stationary(steps: seq<Step>, ratio: Policy -> real) {
    forall i | 0 <= i < |steps| && steps[i].AskStatus? && steps[i].reply.Some? ::
      steps[i].reply.value.missRatio == ratio(steps[i].reply.value.policy)
  }

  ghost predicate Settled(entries: map<Policy, Entry>, ratio: Policy -> real) {
    forall p | p in entries :: entries[p].missRatio == ratio(p)
  }

  ghost predicate LowestMeasured(entries: map<Policy, Entry>, p: Policy, ratio: Policy -> real) {
    forall q | q in entries :: ratio(p) <= ratio(q)
  }

  /** All that was measured, or is about to be stored, is the fixed ratio of its policy. */
  ghost predicate Quiet(s: Sys, ratio: Policy -> real) {
    && Settled(s.entries, ratio)
    && forall t | t in s.threads && s.threads[t].HasStatus? ::
         s.threads[t].status.missRatio == ratio(s.threads[t].status.policy)
  }

  ghost predicate Calm(s: Sys, ratio: Policy -> real) {
    && Quiet(s, ratio)
    && |s.switches| <= 1
    && (s.switches != [] ==> LowestMeasured(s.entries, s.currentPolicy, ratio))
  }

  /** A decision taken on settled entries goes to a strictly better policy, the best of all measured ones. */
  lemma DecisionOnSettled(c: Config, s: Sys, best: Analysis, cacheSize: nat, ratio: Policy -> real)
    requires Sound(c.params) && Settled(s.entries, ratio) && UnitRatios(s.entries) && Decided(c, s, best, cacheSize)
    ensures ratio(best.candidatePolicy) < ratio(s.currentPolicy)
    ensures !LowestMeasured(s.entries, s.currentPolicy, ratio)
    ensures LowestMeasured(s.entries, best.candidatePolicy, ratio)
  {
    var candidates := CandidatesOf(s.entries);
    CostMonotone(c.params, cacheSize, cacheSize);
    RecommendationIsBest(c.params, s.currentPolicy, best.currentMissRatio, candidates, cacheSize, Some(best));
    forall q | q in s.entries
      ensures ratio(best.candidatePolicy) <= ratio(q)
    {
      assert candidates[q] == ratio(q);
    }
  }

  lemma UpdateOnQuiet(c: Config, s: Sys, step: Step, ratio: Policy -> real)
    requires Sound(c.params) && ThreadsOk(c, s) && Quiet(s, ratio) && Enabled(c, s, step) && step.Update?
    ensures var s' := Apply(c, s, step);
            && Quiet(s', ratio) && |s'.switches| == |s.switches| + 1
            && !LowestMeasured(s.entries, s.currentPolicy, ratio) && LowestMeasured(s'.entries, s'.currentPolicy, ratio)
  {
    hide ShiftOf, Score, Samples, IsChoice, Analyze;
    var pc := s.threads[step.t];
    assert PcOk(c, s, pc);
    DecisionOnSettled(c, s, pc.best, pc.cacheSize, ratio);
    OnlyThread(c, s, step.t);
  }

  lemma SaveOnQuiet(c: Config, s: Sys, step: Step, ratio: Policy -> real)
    requires ThreadsOk(c, s) && Quiet(s, ratio) && Enabled(c, s, step) && step.Save?
    ensures var s' := Apply(c, s, step);
            && Quiet(s', ratio) && s'.switches == s.switches && s'.currentPolicy == s.currentPolicy
            && (LowestMeasured(s.entries, s.currentPolicy, ratio) ==> LowestMeasured(s'.entries, s'.currentPolicy, ratio))
  {
    hide ShiftOf, Score, Samples, IsChoice, Analyze, Push;
    assert PcOk(c, s, s.threads[step.t]);
    OnlyThread(c, s, step.t);
  }

  /** Only an update switches, from a policy that is not the lowest to one that is. */
  lemma {:induction false} StepOnQuiet(c: Config, s: Sys, step: Step, ratio: Policy -> real)
    requires Sound(c.params) && ThreadsOk(c, s) && Quiet(s, ratio) && Enabled(c, s, step)
    requires step.AskStatus? && step.reply.Some? ==> step.reply.value.missRatio == ratio(step.reply.value.policy)
    ensures var s' := Apply(c, s, step);
            && Quiet(s', ratio)
            && if step.Update? then
                 && |s'.switches| == |s.switches| + 1
                 && !LowestMeasured(s.entries, s.currentPolicy, ratio)
                     && LowestMeasured(s'.entries, s'.currentPolicy, ratio)
               else
                 && s'.switches == s.switches && s'.currentPolicy == s.currentPolicy
                 && (LowestMeasured(s.entries, s.currentPolicy, ratio) ==>
                     LowestMeasured(s'.entries, s'.currentPolicy, ratio))
  {
    hide ShiftOf, Score, Samples, IsChoice, Analyze, PcOk;
    if step.Update? {
      UpdateOnQuiet(c, s, step, ratio);
    } else if step.Save? {
      SaveOnQuiet(c, s, step, ratio);
    }
  }

  lemma {:induction false} RunsKeepCalm(c: Config, s: Sys, steps: seq<Step>, ratio: Policy -> real)
    requires Sound(c.params) && Inv(c, s) && Calm(s, ratio) && Legal(c, s, steps) && Stationary(steps, ratio)
    ensures Calm(After(c, s, steps), ratio)
    ensures LowestMeasured(s.entries, s.currentPolicy, ratio) ==>
              var s' := After(c, s, steps);
              s'.switches == s.switches && LowestMeasured(s'.entries, s'.currentPolicy, ratio)
  {
    hide Enabled, Apply, Settled;
    if steps == [] {
    } else {
      var front := steps[..|steps| - 1];
      RunsKeepInv(c, s, front);
      assert Stationary(front, ratio) by {
        assert forall i | 0 <= i < |front| :: front[i] == steps[i];
      }
      RunsKeepCalm(c, s, front, ratio);
      StepOnQuiet(c, After(c, s, front), steps[|steps| - 1], ratio);
    }
  }

  // ----- readings that do not change -----

  /** Every status reply of the run reports the same miss ratio. */
  ghost predicate Steady(steps: seq<Step>, r: real) {
    forall i | 0 <= i < |steps| && steps[i].AskStatus? && steps[i].reply.Some? :: steps[i].reply.value.missRatio == r
  }

  /** A status comes from the policy in force. */
  lemma ReplyIsCurrent(c: Config, s: Sys, step: Step)
    requires ThreadsOk(c, s) && Enabled(c, s, step) && step.AskStatus? && step.reply.Some?
    ensures step.reply.value.policy == s.currentPolicy
  {
    assert PcOk(c, s, s.threads[step.t]);
  }

  /** While the server keeps reporting the ratio of the lowest measured policy, that policy stays in force. */
  lemma {:induction false} SteadyStays(c: Config, s: Sys, steps: seq<Step>, ratio: Policy -> real)
    requires Sound(c.params) && Inv(c, s) && Legal(c, s, steps) && Quiet(s, ratio)
    requires LowestMeasured(s.entries, s.currentPolicy, ratio) && Steady(steps, ratio(s.currentPolicy))
    ensures var s' := After(c, s, steps);
            && Quiet(s', ratio) && LowestMeasured(s'.entries, s'.currentPolicy, ratio)
            && s'.currentPolicy == s.currentPolicy && s'.switches == s.switches
  {
    hide Enabled, Apply, Quiet, LowestMeasured;
    if steps == [] {
    } else {
      var front, last := steps[..|steps| - 1], steps[|steps| - 1];
      RunsKeepInv(c, s, front);
      assert Steady(front, ratio(s.currentPolicy)) by {
        assert forall i | 0 <= i < |front| :: front[i] == steps[i];
      }
      SteadyStays(c, s, front, ratio);
      if last.AskStatus? && last.reply.Some? {
        ReplyIsCurrent(c, After(c, s, front), last);
      }
      StepOnQuiet(c, After(c, s, front), last, ratio);
    }
  }

  // ----- runs from Initialize -----

  /**
    Under a stationary workload a run that starts from any policy switches at most once, to a policy with the
    lowest miss ratio of all measured ones; a run that starts from such a policy, as Initialize selects it,
    never switches.
   */
  lemma StationaryWorkload(c: Config, s0: Sys, steps: seq<Step>, ratio: Policy -> real)
    requires Sound(c.params) && Init(c, s0) && Settled(s0.entries, ratio)
    requires Legal(c, s0, steps) && Stationary(steps, ratio)
    ensures var s := After(c, s0, steps);
            && |s.switches| <= 1
            && (s.switches != [] ==> LowestMeasured(s.entries, s.currentPolicy, ratio))
            && (LowestMeasured(s0.entries, s0.currentPolicy, ratio) ==> s.switches == [])
  {
    InitHolds(c, s0);
    RunsKeepCalm(c, s0, steps, ratio);
  }

  /** The server reports each profiled policy's fixed miss ratio. */
  ghost predicate StationaryReplies(policies: seq<Policy>, replies: seq<ProfileReply>, ratio: Policy -> real)
    requires |policies| == |replies|
  {
    forall i | 0 <= i < |replies| && replies[i].accepted && replies[i].reading.Some? ::
      replies[i].reading.value.missRatio == ratio(policies[i])
  }

  lemma {:induction false} SettledByProfiling(policies: seq<Policy>, replies: seq<ProfileReply>, k: nat,
      ratio: Policy -> real)
    requires k <= |policies| == |replies| && StationaryReplies(policies, replies, ratio)
    ensures Settled(Replay(Profiled(policies, replies, k)), ratio)
  {
    if k == 0 {
    } else {
      SettledByProfiling(policies, replies, k - 1, ratio);
      var front, all := Profiled(policies, replies, k - 1), Profiled(policies, replies, k);
      if all != front {
        assert all[..|all| - 1] == front;
      }
    }
  }

  /**
    Under a stationary workload no run switches after Initialize: profiling has measured the fixed ratios, and the
    policy selected from them is one that no candidate beats.
   */
  lemma {:induction false} NoSwitchAfterInitialize(c: Config, s0: Sys, steps: seq<Step>, ratio: Policy -> real,
                                policies: seq<Policy>, replies: seq<ProfileReply>)
    requires Sound(c.params) && Init(c, s0)
    requires |policies| == |replies| && StationaryReplies(policies, replies, ratio)
    requires s0.entries == Replay(Profiled(policies, replies, |replies|))
    requires IsBestPolicy(s0.entries, s0.currentPolicy) && s0.currentPolicy != ""
    requires Legal(c, s0, steps) && Stationary(steps, ratio)
    ensures After(c, s0, steps).switches == []
  {
    SettledByProfiling(policies, replies, |replies|, ratio);
    assert LowestMeasured(s0.entries, s0.currentPolicy, ratio);
    StationaryWorkload(c, s0, steps, ratio);
  }

  // ----- the loop's lifetime -----

  ghost predicate Started(steps: seq<Step>) {
    exists i :: 0 <= i < |steps| && steps[i].Start?
  }

  lemma StartedSplit(steps: seq<Step>)
    requires Started(steps)
    ensures Started(steps[..|steps| - 1]) || steps[|steps| - 1].Start?
  {
    var i :| 0 <= i < |steps| && steps[i].Start?;
    if i < |steps| - 1 {
      assert steps[..|steps| - 1][i].Start?;
    }
  }

  /** A loop, once started, runs until Stop was called. */
  lemma {:induction false} RunsUntilStop(c: Config, s: Sys, steps: seq<Step>)
    requires Inv(c, s) && Legal(c, s, steps) && (s.isRunning || s.stopClosed || Started(steps))
    ensures After(c, s, steps).isRunning || After(c, s, steps).stopClosed
  {
    hide ShiftOf, Score, Samples, IsChoice, Analyze, HistoryOk;
    if steps == [] {
    } else {
      var front, last := steps[..|steps| - 1], steps[|steps| - 1];
      RunsKeepInv(c, s, front);
      if s.isRunning || s.stopClosed || Started(front) {
        RunsUntilStop(c, s, front);
        if last.Finish? {
          assert PcOk(c, After(c, s, front), After(c, s, front).threads[last.t]);
        }
      } else {
        StartedSplit(steps);
      }
    }
  }

  // ----- which policies are measured -----

  lemma StepMeasures(c: Config, s: Sys, step: Step)
    requires ThreadsOk(c, s) && Enabled(c, s, step) && s.currentPolicy in s.entries
    ensures var s' := Apply(c, s, step); s'.entries.Keys == s.entries.Keys && s'.currentPolicy in s'.entries
  {
    hide ShiftOf, Score, Samples, Analyze, Push;
    if step.Update? || step.Save? {
      assert PcOk(c, s, s.threads[step.t]);
    }
  }

  /** The loop measures no policy that Initialize has not measured. */
  lemma {:induction false} MeasuredFixed(c: Config, s: Sys, steps: seq<Step>)
    requires Inv(c, s) && Legal(c, s, steps) && s.currentPolicy in s.entries
    ensures var s' := After(c, s, steps); s'.entries.Keys == s.entries.Keys && s'.currentPolicy in s'.entries
  {
    hide Enabled, Apply;
    if steps == [] {
    } else {
      var front := steps[..|steps| - 1];
      RunsKeepInv(c, s, front);
      MeasuredFixed(c, s, front);
      StepMeasures(c, After(c, s, front), steps[|steps| - 1]);
    }
  }
}
