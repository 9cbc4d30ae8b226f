/**
  The orchestrator object (pkg/adaptive/orchestrator.go). Each method performs a run of the protocol, so the
  guarantees about runs hold for it. The methods run one at a time; what other goroutines do between the steps of an
  evaluation is the subject of the protocol itself.
 */
module Orchestrator {
  import Arith
  import opened CacheTypes
  import opened CostBenefit
  import opened Guarantees
  import opened Metrics
  import opened Pattern
  import opened Protocol
  import opened Server
  import opened Trend
  import opened Window

  datatype InitResult = Initialized | NoStatus | ProfilingFailed | NoSuitablePolicy | CommandRefused

  /** The outside world during one evaluation: three clock readings, the server's figures, whether it accepts a command. */
  datatype Tick = Tick(checkedAt: Time, reading: Option<Reading>, savedAt: Time, accepted: bool, updatedAt: Time)

  ghost predicate Monotone(clock: Time, tick: Tick) {
    clock <= tick.checkedAt <= tick.savedAt <= tick.updatedAt
  }

  ghost predicate Plausible(reading: Option<Reading>) {
    reading.Some? ==> 0.0 <= reading.value.missRatio <= 1.0
  }

  /** What happens while a started loop waits: a tick, an access or a Stop from elsewhere, or the stop signal arriving. */
  datatype Event = Ticked(tick: Tick) | Accessed(key: string, isHit: bool, at: Time) | StopRequested | StopSignalled

  /** The ticks carry readings of one advancing clock. */
  ghost predicate Timely(clock: Time, events: seq<Event>)
    decreases |events|
  {
    events == [] ||
    if events[0].Ticked? then
      Monotone(clock, events[0].tick) && Plausible(events[0].tick.reading) && Timely(events[0].tick.updatedAt, events[1..])
    else Timely(clock, events[1..])
  }

  lemma {:induction false} TimelyEarlier(clock: Time, later: Time, events: seq<Event>)
    requires clock <= later && Timely(later, events)
    ensures Timely(clock, events)
  {
    if events != [] && !events[0].Ticked? {
      TimelyEarlier(clock, later, events[1..]);
    }
  }

  /** The steps of one evaluation that is not cut short, when nobody else takes a step. */
  ghost function Script(t: nat, s: Sys, tick: Tick, best: Option<Analysis>): seq<Step>
    requires Monotone(s.clock, tick)
  {
    CooldownScript(t, s.clock, tick)
        + (MeasureScript(t, s.server, tick) + ([Detect(t), Judge(t)] + ChoiceScript(t, best) + SwitchScript(t, tick)))
  }

  ghost function CooldownScript(t: nat, clock: Time, tick: Tick): seq<Step>
    requires clock <= tick.checkedAt
  {
    [Fire(t), Elapse(tick.checkedAt - clock), CheckCooldown(t)]
  }

  ghost function MeasureScript(t: nat, server: Policy, tick: Tick): seq<Step>
    requires tick.checkedAt <= tick.savedAt
  {
    [AskStatus(t, StatusOf(server, tick.reading)), Elapse(tick.savedAt - tick.checkedAt), Save(t)]
  }

  ghost function ChoiceScript(t: nat, best: Option<Analysis>): seq<Step> {
    [Choose(t, best)]
  }

  ghost function SwitchScript(t: nat, tick: Tick): seq<Step>
    requires tick.savedAt <= tick.updatedAt
  {
    [Command(t, tick.accepted), Elapse(tick.updatedAt - tick.savedAt), Update(t), Reset(t)]
  }

  /** The steps lead from s to s', where goroutine t waits for its next tick. */
  ghost predicate Performed(c: Config, s: Sys, steps: seq<Step>, s': Sys, t: nat) {
    Legal(c, s, steps) && After(c, s, steps) == s' && t in s'.threads && s'.threads[t].Waiting?
  }

  lemma OneStep(c: Config, s: Sys, step: Step)
    requires Enabled(c, s, step)
    ensures Legal(c, s, [step]) && After(c, s, [step]) == Apply(c, s, step)
  {
    Extend(c, s, [], step);
    assert [] + [step] == [step];
  }

  // ----- what single steps do to the goroutine -----

  lemma FireStep(c: Config, s: Sys, t: nat)
    requires t in s.threads && s.threads[t].Waiting?
    ensures Enabled(c, s, Fire(t)) && Apply(c, s, Fire(t)) == Goto(s, t, HasRead(s.currentPolicy, s.lastSwitchTime))
  {
  }

  lemma CheckStep(c: Config, s: Sys, t: nat)
    requires t in s.threads && s.threads[t].HasRead?
    ensures Enabled(c, s, CheckCooldown(t))
    ensures Apply(c, s, CheckCooldown(t)) ==
              Goto(s, t, if s.clock - s.threads[t].last < c.stabilityPeriod then Waiting
                  else PastCooldown(s.threads[t].current))
  {
  }

  lemma AskStep(c: Config, s: Sys, t: nat, reading: Option<Reading>)
    requires t in s.threads && s.threads[t].PastCooldown? && Plausible(reading)
    ensures var reply := StatusOf(s.server, reading);
            && Enabled(c, s, AskStatus(t, reply))
            && Apply(c, s, AskStatus(t, reply)) ==
                Goto(s, t, if reply.None? then Waiting else HasStatus(s.threads[t].current, reply.value))
  {
  }

  lemma SaveStep(c: Config, s: Sys, t: nat)
    requires t in s.threads && s.threads[t].HasStatus?
    ensures Enabled(c, s, Save(t))
    ensures var pc := s.threads[t];
            var entries := Store(s.entries, Measurement(pc.status.policy, pc.status.missRatio, s.clock));
            Apply(c, s, Save(t)) ==
              Goto(s.(entries := entries, history := Push(s.history, MAX_HISTORY, SnapshotOf(pc.status, s.clock))),
                  t, Collected(pc.current, entries))
  {
    hide Store, Push;
  }

  lemma DetectStep(c: Config, s: Sys, t: nat)
    requires t in s.threads && s.threads[t].Collected? && s.history != []
    ensures Enabled(c, s, Detect(t))
    ensures Apply(c, s, Detect(t)) ==
              Goto(s, t, ShiftKnown(s.threads[t].current, s.threads[t].view, ShiftOf(c.sqrt, s.log, c.windowSize).detected))
  {
    hide ShiftOf;
  }

  lemma JudgeStep(c: Config, s: Sys, t: nat)
    requires t in s.threads && s.threads[t].ShiftKnown?
    ensures Enabled(c, s, Judge(t))
    ensures var pc := s.threads[t];
            Apply(c, s, Judge(t)) ==
              Goto(s, t, if pc.shift || Score(c.thresholds, s.history, pc.current).indicatesDegradation
                         then NeedsEvaluation(pc.current, pc.view, pc.shift, |Samples(s.history, pc.current)|) else Waiting)
  {
    hide Score, Samples;
  }

  lemma LastNonEmpty(collected: seq<MetricsSnapshot>, x: MetricsSnapshot)
    ensures Last(MAX_HISTORY, collected + [x]) != []
  {
  }

  lemma {:induction false} ProfiledInUnit(policies: seq<Policy>, replies: seq<ProfileReply>, k: nat)
    requires k <= |policies| == |replies|
    requires forall i | 0 <= i < k && replies[i].reading.Some? :: 0.0 <= replies[i].reading.value.missRatio <= 1.0
    ensures forall i | 0 <= i < |Profiled(policies, replies, k)| ::
        0.0 <= Profiled(policies, replies, k)[i].missRatio <= 1.0
  {
    if k == 0 {
    } else {
      ProfiledInUnit(policies, replies, k - 1);
    }
  }

  lemma {:induction false} ReplayInUnit(a: seq<Measurement>, b: seq<Measurement>)
    requires UnitRatios(Replay(a)) && forall i | 0 <= i < |b| :: 0.0 <= b[i].missRatio <= 1.0
    ensures UnitRatios(Replay(a + b))
  {
    if b == [] {
      assert a + b == a;
    } else {
      ReplayInUnit(a, b[..|b| - 1]);
      assert (a + b)[..|a + b| - 1] == a + b[..|b| - 1];
    }
  }

  lemma BestIsMeasured(entries: map<Policy, Entry>, best: Policy)
    requires IsBestPolicy(entries, best)
    ensures best != "" ==> best in entries
  {
  }

  // ----- where status replies come from -----

  /** The status is what the server made of the reading of this tick. */
  ghost predicate FromEvent(status: PaperStatus, event: Event) {
    event.Ticked? && event.tick.reading.Some? && StatusOf(status.policy, event.tick.reading) == Some(status)
  }

  /** Every status reply of the run comes from one of the events. */
  ghost predicate FromEvents(steps: seq<Step>, events: seq<Event>) {
    forall i | 0 <= i < |steps| && steps[i].AskStatus? && steps[i].reply.Some? ::
      exists event :: event in events && FromEvent(steps[i].reply.value, event)
  }

  /** All status replies after the first n steps come from this event. */
  ghost predicate Since(steps: seq<Step>, n: nat, event: Event) {
    n <= |steps| &&
    forall i | n <= i < |steps| && steps[i].AskStatus? && steps[i].reply.Some? :: FromEvent(steps[i].reply.value, event)
  }

  lemma SinceFrom(before: seq<Step>, steps: seq<Step>, event: Event, events: seq<Event>)
    requires FromEvents(before, events) && before <= steps && Since(steps, |before|, event) && event in events
    ensures FromEvents(steps, events)
  {
    forall i | 0 <= i < |steps| && steps[i].AskStatus? && steps[i].reply.Some?
      ensures exists event :: event in events && FromEvent(steps[i].reply.value, event)
    {
      if i < |before| {
        assert steps[i] == before[i];
      }
    }
  }

  lemma ScriptSince(before: seq<Step>, more: seq<Step>, t: nat, s: Sys, tick: Tick, best: Option<Analysis>)
    requires Monotone(s.clock, tick) && more <= Script(t, s, tick, best)
    ensures Since(before + more, |before|, Ticked(tick))
  {
    var script := Script(t, s, tick, best);
    assert forall i | 0 <= i < |script| && script[i].AskStatus? :: i == 3;
    forall i | |before| <= i < |before + more| && (before + more)[i].AskStatus? && (before + more)[i].reply.Some?
      ensures FromEvent((before + more)[i].reply.value, Ticked(tick))
    {
      assert (before + more)[i] == script[i - |before|];
    }
  }

  lemma QuietSince(before: seq<Step>, more: seq<Step>, event: Event)
    requires forall step | step in more :: !step.AskStatus?
    ensures Since(before + more, |before|, event)
  {
    forall i | |before| <= i < |before + more|
      ensures !(before + more)[i].AskStatus?
    {
      assert (before + more)[i] in more;
    }
  }

  /** All readings of the events show the same miss ratio. */
  ghost predicate SteadyReadings(events: seq<Event>, r: real) {
    forall event | event in events && event.Ticked? && event.tick.reading.Some? :: event.tick.reading.value.missRatio == r
  }

  lemma SteadyRun(steps: seq<Step>, events: seq<Event>, r: real)
    requires FromEvents(steps, events) && SteadyReadings(events, r)
    ensures Steady(steps, r)
  {
  }

  /** A server that keeps reporting the ratio recorded for the current policy, which no measured policy is below. */
  ghost predicate Undisturbed(c: Config, s: Sys, events: seq<Event>, ratio: Policy -> real) {
    && Sound(c.params) && Settled(s.entries, ratio)
    && LowestMeasured(s.entries, s.currentPolicy, ratio) && SteadyReadings(events, ratio(s.currentPolicy))
  }

  ghost predicate KeptPolicy(s: Sys, s': Sys) {
    s'.currentPolicy == s.currentPolicy && s'.switches == s.switches
  }

  /** Such a state is what Initialize leaves when profiling meets a server with a fixed ratio for each policy. */
  lemma InitializedUndisturbed(c: Config, s: Sys, policies: seq<Policy>, replies: seq<ProfileReply>, events: seq<Event>,
      ratio: Policy -> real)
    requires Sound(c.params) && |policies| == |replies| && StationaryReplies(policies, replies, ratio)
    requires s.entries == Replay(Profiled(policies, replies, |replies|))
    requires IsBestPolicy(s.entries, s.currentPolicy) && s.currentPolicy != ""
    requires SteadyReadings(events, ratio(s.currentPolicy))
    ensures Undisturbed(c, s, events, ratio)
  {
    SettledByProfiling(policies, replies, |replies|, ratio);
  }

  /** What a loop started now does on such events, if it starts at all. */
  lemma RunIsUndisturbed(c: Config, s: Sys, steps: seq<Step>, events: seq<Event>, started: bool)
    requires Inv(c, s) && Legal(c, s, steps) && FromEvents(steps, events)
    requires if started then !s.isRunning else After(c, s, steps) == s
    ensures forall ratio | Undisturbed(c, s, events, ratio) :: KeptPolicy(s, After(c, s, steps))
  {
    if started {
      assert s.threads == map[];
      forall ratio | Undisturbed(c, s, events, ratio)
        ensures KeptPolicy(s, After(c, s, steps))
      {
        SteadyRun(steps, events, ratio(s.currentPolicy));
        SteadyStays(c, s, steps, ratio);
      }
    }
  }

  // ----- what one evaluation does -----

  /** Nothing but the clock and the place of goroutines differs. */
  ghost predicate Unmoved(s: Sys, s': Sys) {
    s'.(clock := s.clock, threads := s.threads) == s
  }

  /** Some measured policy promises more than the threshold over the current one at this reading. */
  ghost predicate Better(p: Params, current: Policy, entries: map<Policy, Entry>, missRatio: real, maxSize: nat) {
    exists q :: q in entries && q != current
      && Analyze(p, current, q, missRatio, entries[q].missRatio, maxSize).netBenefit > p.threshold
  }

  /** No measured policy other than the current one promises more than q. */
  ghost predicate BestOf(p: Params, current: Policy, entries: map<Policy, Entry>, missRatio: real, maxSize: nat,
      q: Policy) {
    && q in entries && q != current
    && forall r | r in entries && r != current ::
         Analyze(p, current, r, missRatio, entries[r].missRatio, maxSize).netBenefit
           <= Analyze(p, current, q, missRatio, entries[q].missRatio, maxSize).netBenefit
  }

  /** The outcome of the comparison: the analysis chosen and, when it recommends a switch, the switch. */
  ghost predicate Recommends(p: Params, history: seq<MetricsSnapshot>, current: Policy, entries: map<Policy, Entry>,
                             chosen: Option<Analysis>, best: Option<Analysis>)
  {
    if history == [] || entries == map[] then chosen.None? && best.None?
    else
      var latest := history[|history| - 1];
      && IsChoice(p, current, latest.missRatio, CandidatesOf(entries), latest.cacheSize, best)
      && chosen == if best.Some? && best.value.shouldSwitch then best else None
  }

  /** What the comparison means for the protocol: a switch is under way exactly when some candidate promises enough. */
  ghost predicate Chose(c: Config, s: Sys, t: nat, chosen: Option<Analysis>, best: Option<Analysis>)
    requires t in s.threads && s.threads[t].NeedsEvaluation?
  {
    && Enabled(c, s, Choose(t, best))
    && var s' := Apply(c, s, Choose(t, best));
       && Unmoved(s, s') && s'.clock == s.clock && t in s'.threads
       && (if chosen.Some? then s'.threads[t].Switching? && s'.threads[t].best == chosen.value else s'.threads[t].Waiting?)
       && (s.history != [] ==>
             var current, entries, latest := s.threads[t].current, s.threads[t].view, Latest(s);
             && (chosen.Some? <==> Better(c.params, current, entries, latest.missRatio, latest.cacheSize))
             && (chosen.Some? ==>
                   BestOf(c.params, current, entries, latest.missRatio, latest.cacheSize, chosen.value.candidatePolicy)))
  }

  lemma ChooseStep(c: Config, s: Sys, t: nat, chosen: Option<Analysis>, best: Option<Analysis>)
    requires c.params.threshold >= -1.0 && t in s.threads && s.threads[t].NeedsEvaluation?
    requires Recommends(c.params, s.history, s.threads[t].current, s.threads[t].view, chosen, best)
    ensures Chose(c, s, t, chosen, best)
  {
    if s.history != [] {
      var latest := Latest(s);
      assert IsChoice(c.params, s.threads[t].current, latest.missRatio, CandidatesOf(s.threads[t].view),
          latest.cacheSize, best);
      ChoiceIsBest(c.params, s.threads[t].current, latest.missRatio, s.threads[t].view, latest.cacheSize, best);
    }
    hide Better, BestOf, Analyze, IsChoice;
  }

  lemma ChoiceIsBest(p: Params, current: Policy, missRatio: real, entries: map<Policy, Entry>, maxSize: nat,
      best: Option<Analysis>)
    requires p.threshold >= -1.0 && IsChoice(p, current, missRatio, CandidatesOf(entries), maxSize, best)
    ensures best.Some? && best.value.shouldSwitch <==> Better(p, current, entries, missRatio, maxSize)
    ensures best.Some? ==> BestOf(p, current, entries, missRatio, maxSize, best.value.candidatePolicy)
  {
    hide Analyze;
    var candidates := CandidatesOf(entries);
    ChoiceIsComplete(p, current, missRatio, candidates, maxSize, best);
    assert forall q | q in entries :: q in candidates && candidates[q] == entries[q].missRatio;
    if Better(p, current, entries, missRatio, maxSize) {
      var q :| q in entries && q != current
          && Analyze(p, current, q, missRatio, entries[q].missRatio, maxSize).netBenefit > p.threshold;
      assert Analyze(p, current, q, missRatio, candidates[q], maxSize).netBenefit > p.threshold;
    }
    if q :|
      && q in candidates && q != current
      && Analyze(p, current, q, missRatio, candidates[q], maxSize).netBenefit > p.threshold
    {
      assert Analyze(p, current, q, missRatio, entries[q].missRatio, maxSize).netBenefit > p.threshold;
    }
    if best.Some? {
      forall r | r in entries && r != current
        ensures Analyze(p, current, r, missRatio, entries[r].missRatio, maxSize).netBenefit <= best.value.netBenefit
      {
        assert Analyze(p, current, r, missRatio, candidates[r], maxSize).netBenefit <= best.value.netBenefit;
      }
    }
  }

  /** Policy `to` was put in force at the given time: on the server, in the state, and with an empty window. */
  ghost predicate SwitchedTo(s: Sys, s': Sys, to: Policy, at: Time) {
    && s'.currentPolicy == s'.server == to && s'.lastSwitchTime == at
    && |s'.switches| == |s.switches| + 1 && s.switches <= s'.switches
    && s'.switches[|s.switches|].to == to && s'.switches[|s.switches|].at == at
    && s'.log == [] && s'.recorded == []
    && s'.entries == s.entries && s'.history == s.history
  }

  /** One measurement and one snapshot of the running policy were added. */
  ghost predicate MeasuredAt(s: Sys, s': Sys, reading: Reading, at: Time) {
    && Unmoved(s.(entries := s'.entries, history := s'.history), s')
    && s'.entries == Store(s.entries, Measurement(s.server, reading.missRatio, at))
    && s'.history == Push(s.history, MAX_HISTORY, SnapshotOf(StatusOf(s.server, Some(reading)).value, at)) != []
  }

  /** After the measurement: either signal calls for an evaluation of the candidates. */
  ghost predicate Cause(c: Config, log: seq<CacheAccess>, history: seq<MetricsSnapshot>, current: Policy) {
    ShiftOf(c.sqrt, log, c.windowSize).detected || Score(c.thresholds, history, current).indicatesDegradation
  }

  /**
    What one tick does, exactly. It measures when the stability period is over and the server gives a reading; and it
    switches, to the policy that promises most, when moreover there is cause to look at the candidates, one of them
    promises more than the threshold, and the server accepts the command.
   */
  ghost predicate Outcome(c: Config, s: Sys, s': Sys, tick: Tick) {
    if tick.checkedAt - s.lastSwitchTime < c.stabilityPeriod || tick.reading.None? then Unmoved(s, s')
    else
      var reading := tick.reading.value;
      var measured := s.(entries := s'.entries, history := s'.history);
      && MeasuredAt(s, measured, reading, tick.savedAt)
      && if && Cause(c, s.log, s'.history, s.currentPolicy)
            && Better(c.params, s.currentPolicy, s'.entries, reading.missRatio, reading.maxSize)
            && tick.accepted
         then && SwitchedTo(measured, s', s'.currentPolicy, tick.updatedAt)
              && BestOf(c.params, s.currentPolicy, s'.entries, reading.missRatio, reading.maxSize, s'.currentPolicy)
         else Unmoved(measured, s')
  }

  /** What the candidates' evaluation does, from the state in which the measurement left it. */
  ghost predicate Decision(c: Config, mid: Sys, s': Sys, current: Policy, tick: Tick) {
    mid.history != [] &&
    var latest := Latest(mid);
    if tick.accepted && Better(c.params, current, mid.entries, latest.missRatio, latest.cacheSize)
    then && SwitchedTo(mid, s', s'.currentPolicy, tick.updatedAt)
         && BestOf(c.params, current, mid.entries, latest.missRatio, latest.cacheSize, s'.currentPolicy)
    else Unmoved(mid, s')
  }

  lemma DecisionEarlier(c: Config, s: Sys, mid: Sys, s': Sys, current: Policy, tick: Tick)
    requires Unmoved(s, mid) && Decision(c, mid, s', current, tick)
    ensures Decision(c, s, s', current, tick)
  {
    hide Better, BestOf;
  }

  lemma AssessOutcome(c: Config, s: Sys, mid: Sys, s': Sys, tick: Tick)
    requires s.server == s.currentPolicy && tick.checkedAt - s.lastSwitchTime >= c.stabilityPeriod && tick.reading.Some?
    requires MeasuredAt(s, mid, tick.reading.value, tick.savedAt)
    requires if Cause(c, mid.log, mid.history, s.currentPolicy) then Decision(c, mid, s', s.currentPolicy, tick)
        else Unmoved(mid, s')
    ensures Outcome(c, s, s', tick)
  {
    PushLast(s.history, MAX_HISTORY, SnapshotOf(StatusOf(s.server, tick.reading).value, tick.savedAt));
    hide Cause, Better, BestOf, Store, Push;
  }

  lemma OutcomeEarlier(c: Config, s: Sys, mid: Sys, s': Sys, tick: Tick)
    requires Unmoved(s, mid) && Outcome(c, mid, s', tick)
    ensures Outcome(c, s, s', tick)
  {
    hide Cause, Better, BestOf, Store, Push;
  }

  lemma WaitingAgrees(c: Config, s: Sys, t: nat)
    requires ThreadsOk(c, s) && t in s.threads && s.threads[t].Waiting?
    ensures s.server == s.currentPolicy
  {
    assert PcOk(c, s, s.threads[t]);
  }

  /** The same in terms of what anybody can see before and after the tick. */
  lemma OutcomeSwitches(c: Config, s: Sys, s': Sys, tick: Tick)
    requires Outcome(c, s, s', tick)
    ensures |s'.switches| == |s.switches| + 1 <==>
              && tick.checkedAt - s.lastSwitchTime >= c.stabilityPeriod && tick.reading.Some? && tick.accepted
              && Cause(c, s.log, s'.history, s.currentPolicy)
              && Better(c.params, s.currentPolicy, s'.entries, tick.reading.value.missRatio, tick.reading.value.maxSize)
    ensures if |s'.switches| == |s.switches| + 1
            then && s'.currentPolicy == s'.server && s'.lastSwitchTime == tick.updatedAt && s'.log == []
                && s'.recorded == []
                 && BestOf(c.params, s.currentPolicy, s'.entries, tick.reading.value.missRatio, tick.reading.value.maxSize,
                           s'.currentPolicy)
            else && s'.currentPolicy == s.currentPolicy && s'.server == s.server && s'.lastSwitchTime == s.lastSwitchTime
                 && s'.log == s.log && s'.recorded == s.recorded && s'.switches == s.switches
  {
    hide Cause, Better, BestOf, Store, Push;
  }

  lemma PushLast<T>(log: seq<T>, capacity: nat, x: T)
    requires capacity > 0
    ensures var after := Push(log, capacity, x); after != [] && after[|after| - 1] == x
  {
  }

  class IntelligentOrchestrator {
    const client: PaperClient
    const metricsAggregator: MetricsAggregator
    const patternDetector: PatternDetector
    const trendAnalyzer: TrendAnalyzer
    const costBenefitAnalyzer: CostBenefitAnalyzer
    const stabilityPeriod: Time
    const switchThreshold: real
    var currentPolicy: Policy
    var lastSwitchTime: Time
    var isRunning: bool
    var stopClosed: bool
    /** The protocol state this object is in. */
    ghost var sys: Sys

    ghost function Settings(): Config
      reads costBenefitAnalyzer, trendAnalyzer
      requires costBenefitAnalyzer.Valid()
    {
      Config(stabilityPeriod, costBenefitAnalyzer.Config(), patternDetector.windowSize, trendAnalyzer.Config(),
          patternDetector.sqrt)
    }

    ghost predicate Components()
      reads metricsAggregator, metricsAggregator.policyMetrics.Values, patternDetector, costBenefitAnalyzer
    {
      && metricsAggregator.client == client
      && metricsAggregator.Valid() && patternDetector.Valid() && costBenefitAnalyzer.Valid()
    }

    ghost predicate Mirrors()
      reads this, client, metricsAggregator, patternDetector
    {
      && sys.server == client.active
      && sys.currentPolicy == currentPolicy && sys.lastSwitchTime == lastSwitchTime
      && sys.isRunning == isRunning && sys.stopClosed == stopClosed
      && sys.log == patternDetector.accessLog && sys.recorded == patternDetector.recorded
      && sys.entries == Replay(metricsAggregator.measured) && sys.history == metricsAggregator.history
    }

    ghost predicate Ready()
      reads this, client, metricsAggregator, metricsAggregator.policyMetrics.Values, patternDetector, trendAnalyzer,
          costBenefitAnalyzer
    {
      Components() && Mirrors() && Inv(Settings(), sys)
    }

    /** The switches this object made are spaced and chained as those of every run. */
    lemma SwitchesSpaced()
      requires Ready()
      ensures |sys.switches| * stabilityPeriod <= sys.clock - sys.initialTime
      ensures currentPolicy == PolicyAfter(sys.switches, sys.initialPolicy, |sys.switches|)
    {
      hide HistoryOk, ThreadsOk, Spaced, SwitchTime;
      LastSwitchPast(Settings(), sys);
      GoodHistory(Settings(), sys);
      SpacedTimes(sys.switches, sys.initialTime, stabilityPeriod);
    }

    /** This object does not thrash: it returns to a policy only after the others got worse by more than the margin. */
    lemma ReturnsPay(i: nat, j: nat)
      requires Ready() && Sound(Settings().params)
      requires i < j < |sys.switches| && sys.switches[j].to == sys.switches[i].from && Departed(sys.switches, i, j)
      ensures EnteredAt(sys.switches, i, j)
                < Arith.Mul(Power(1.0 - Margin(Settings().params), j - i + 1), LeftAt(sys.switches, i + 1, j + 1))
    {
      hide HistoryOk, ThreadsOk, Mirrors, Good, Returns, Departed, EnteredAt, LeftAt, Power, Margin, Sound;
      GoodHistory(Settings(), sys);
      NoThrashingIn(Settings(), sys.switches, i, j);
    }

    constructor (client: PaperClient, stabilityPeriod: Time, switchThreshold: real, maxMemory: nat,
        sqrt: real -> real, now: Time)
      requires maxMemory > 0
      ensures Components() && this.client == client && !isRunning && !stopClosed && metricsAggregator.measured == []
      ensures fresh(metricsAggregator) && fresh(patternDetector) && fresh(trendAnalyzer) && fresh(costBenefitAnalyzer)
      ensures costBenefitAnalyzer.Config() == Params(maxMemory, 0.05, DEFAULT_WEIGHTS)
      ensures trendAnalyzer.Config() == Thresholds(0.01, 0.05, 3)
      ensures metricsAggregator.policyMetrics == map[]
      ensures patternDetector.windowSize == 1000 && this.stabilityPeriod == stabilityPeriod
          && this.switchThreshold == switchThreshold
    {
      this.client := client;
      metricsAggregator := new MetricsAggregator(client);
      patternDetector := new PatternDetector(1000, sqrt);
      trendAnalyzer := new TrendAnalyzer();
      costBenefitAnalyzer := new CostBenefitAnalyzer(maxMemory);
      this.stabilityPeriod, this.switchThreshold := stabilityPeriod, switchThreshold;
      currentPolicy, lastSwitchTime, isRunning, stopClosed := "", now, false, false;
    }

    /** Discovers and profiles the configured policies and selects a measured one with the lowest miss ratio. */
    method SelectInitialPolicy(discovery: Option<Reading>, replies: seq<ProfileReply>) returns (r: InitResult, best: Policy)
      requires Components()
      requires discovery.Some? ==> |replies| == |discovery.value.policies|
      requires UnitRatios(metricsAggregator.Entries())
      requires forall i | 0 <= i < |replies| && replies[i].reading.Some? :: 0.0 <= replies[i].reading.value.missRatio <= 1.0
      modifies client, metricsAggregator, metricsAggregator.policyMetrics.Values
      ensures Components() && fresh(metricsAggregator.policyMetrics.Values - old(metricsAggregator.policyMetrics.Values))
      ensures r == if discovery.None? then NoStatus
                   else if discovery.value.policies == [] then ProfilingFailed
                   else if best == "" then NoSuitablePolicy
                   else Initialized
      ensures old(metricsAggregator.policyMetrics) == map[] && discovery.Some? ==> metricsAggregator.Known()
      ensures r.Initialized? ==>
                && best in metricsAggregator.Entries()
                && UnitRatios(metricsAggregator.Entries()) && IsBestPolicy(metricsAggregator.Entries(), best)
                && metricsAggregator.measured == old(metricsAggregator.measured)
                    + Profiled(discovery.value.policies, replies, |replies|)
    {
      hide IsBestPolicy, Replay, Last, ValuesOf, Profiled;
      best := "";
      var status := client.Status(discovery);
      var found := metricsAggregator.Initialize(status);
      if !found {
        return NoStatus, best;
      }
      var profiled := metricsAggregator.FastProfile(replies);
      if !profiled {
        return ProfilingFailed, best;
      }
      ProfiledInUnit(discovery.value.policies, replies, |replies|);
      ReplayInUnit(old(metricsAggregator.measured), Profiled(discovery.value.policies, replies, |replies|));
      best := metricsAggregator.SelectBestPolicy();
      BestIsMeasured(metricsAggregator.Entries(), best);
      return if best == "" then NoSuitablePolicy else Initialized, best;
    }

    /** On success the selected policy is active and current, the cooldown starts and the threshold is set. */
    method Initialize(discovery: Option<Reading>, replies: seq<ProfileReply>, accepted: bool, now: Time)
      returns (r: InitResult)
      requires Components() && !isRunning
      requires discovery.Some? ==> |replies| == |discovery.value.policies|
      requires UnitRatios(metricsAggregator.Entries())
      requires forall i | 0 <= i < |replies| && replies[i].reading.Some? :: 0.0 <= replies[i].reading.value.missRatio <= 1.0
      modifies this, client, metricsAggregator, metricsAggregator.policyMetrics.Values, costBenefitAnalyzer
      ensures Components()
      ensures r.Initialized? ==>
                && discovery.Some? && discovery.value.policies != [] && accepted
                && Ready() && Init(Settings(), sys) && sys.clock == now
                && IsBestPolicy(sys.entries, currentPolicy) && currentPolicy != ""
                && metricsAggregator.measured == old(metricsAggregator.measured)
                    + Profiled(discovery.value.policies, replies, |replies|)
                && costBenefitAnalyzer.switchThreshold ==
                     if 0.0 <= switchThreshold <= 1.0 then switchThreshold else old(costBenefitAnalyzer.switchThreshold)
      ensures !r.Initialized? ==> currentPolicy == old(currentPolicy) && lastSwitchTime == old(lastSwitchTime)
      ensures costBenefitAnalyzer.weights == old(costBenefitAnalyzer.weights)
      ensures NonNegative(old(costBenefitAnalyzer.weights)) && r.Initialized? ==> Sound(Settings().params)
      ensures old(metricsAggregator.policyMetrics) == map[] && r.Initialized? ==>
                metricsAggregator.Known() && currentPolicy in sys.entries
    {
      hide Inv, Init, IsBestPolicy, UnitRatios, Profiled;
      var bestPolicy;
      r, bestPolicy := SelectInitialPolicy(discovery, replies);
      if !r.Initialized? {
        return;
      }
      var ok := client.SetPolicy(bestPolicy, accepted);
      if !ok {
        return CommandRefused;
      }
      costBenefitAnalyzer.SetThreshold(switchThreshold);
      Adopt(bestPolicy, now);
    }

    method Adopt(bestPolicy: Policy, now: Time)
      requires Components() && !isRunning && client.active == bestPolicy && UnitRatios(metricsAggregator.Entries())
      modifies this`currentPolicy, this`lastSwitchTime, this`sys
      ensures Components() && Ready() && Init(Settings(), sys)
      ensures currentPolicy == bestPolicy && lastSwitchTime == sys.clock == now
    {
      hide Inv, Replay;
      currentPolicy := bestPolicy;
      lastSwitchTime := now;
      sys := Sys(now, client.active, currentPolicy, now, isRunning, stopClosed, patternDetector.accessLog,
                 metricsAggregator.Entries(), metricsAggregator.history, map[], currentPolicy, now,
                     patternDetector.recorded, []);
      InitHolds(Settings(), sys);
    }

    method RecordAccess(key: string, isHit: bool, now: Time)
      requires Ready()
      modifies this`sys, patternDetector
      ensures Ready()
      ensures sys == Apply(Settings(), old(sys), Access(CacheAccess(key, now, isHit)))
    {
      ghost var step := Access(CacheAccess(key, now, isHit));
      PushKeepsLast(patternDetector.recorded, patternDetector.windowSize, CacheAccess(key, now, isHit));
      StepKeepsThreads(Settings(), sys, step);
      StepKeepsHistory(Settings(), sys, step);
      patternDetector.RecordAccess(key, isHit, now);
      sys := Apply(Settings(), sys, step);
    }

    /** Lets the protocol take one step after those in `steps`. */
    ghost method Take(c: Config, s: Sys, steps: seq<Step>, step: Step) returns (more: seq<Step>)
      requires Legal(c, s, steps) && After(c, s, steps) == sys && Enabled(c, sys, step)
      modifies this`sys
      ensures more == steps + [step] && Legal(c, s, more) && After(c, s, more) == sys == Apply(c, old(sys), step)
    {
      Extend(c, s, steps, step);
      more := steps + [step];
      sys := Apply(c, sys, step);
    }

    /** Concrete and protocol state agree, the latter being the end of a run of `steps` from s. */
    ghost predicate Ran(c: Config, s: Sys, steps: seq<Step>)
      reads this, client, metricsAggregator, metricsAggregator.policyMetrics.Values, patternDetector, trendAnalyzer,
          costBenefitAnalyzer
    {
      Components() && Mirrors() && c == Settings() && Legal(c, s, steps) && After(c, s, steps) == sys
    }

    method UpdateState(t: nat, analysis: Analysis, now: Time, ghost c: Config, ghost s: Sys, ghost before: seq<Step>)
      returns (ghost steps: seq<Step>)
      requires Ran(c, s, before) && t in sys.threads && sys.threads[t].Commanded? && sys.threads[t].best == analysis
          && sys.clock == now
      modifies this`currentPolicy, this`lastSwitchTime, this`sys
      ensures Ran(c, s, steps) && steps == before + [Update(t)] && sys.clock == now
      ensures sys.currentPolicy == analysis.candidatePolicy && sys.lastSwitchTime == now
      ensures |sys.switches| == |old(sys).switches| + 1 && old(sys).switches <= sys.switches
      ensures var w := sys.switches[|old(sys).switches|]; w.to == analysis.candidatePolicy && w.at == now
      ensures sys.server == old(sys).server && sys.entries == old(sys).entries && sys.history == old(sys).history
      ensures t in sys.threads && sys.threads[t].Updated?
    {
      hide After, Legal;
      currentPolicy := analysis.candidatePolicy;
      lastSwitchTime := now;
      steps := Take(c, s, before, Update(t));
    }

    method ResetDetector(t: nat, ghost c: Config, ghost s: Sys, ghost before: seq<Step>) returns (ghost steps: seq<Step>)
      requires Ran(c, s, before) && t in sys.threads && sys.threads[t].Updated?
      modifies this`sys, patternDetector
      ensures Ran(c, s, steps) && steps == before + [Reset(t)] && sys.clock == old(sys.clock)
      ensures Unmoved(old(sys).(log := [], recorded := []), sys)
      ensures patternDetector.accessLog == [] && patternDetector.recorded == []
      ensures t in sys.threads && sys.threads[t].Waiting?
    {
      hide After, Legal;
      patternDetector.Clear();
      steps := Take(c, s, before, Reset(t));
    }

    method CommandServer(t: nat, analysis: Analysis, accepted: bool, ghost c: Config, ghost s: Sys, ghost before: seq<Step>)
      returns (ok: bool, ghost steps: seq<Step>)
      requires Ran(c, s, before) && t in sys.threads && sys.threads[t].Switching? && sys.threads[t].best == analysis
      modifies this`sys, client
      ensures Ran(c, s, steps) && steps == before + [Command(t, accepted)] && ok == accepted && sys.clock == old(sys.clock)
      ensures Unmoved(if ok then old(sys).(server := analysis.candidatePolicy) else old(sys), sys)
      ensures t in sys.threads && if ok then sys.threads[t].Commanded?
          && sys.threads[t].best == analysis else sys.threads[t].Waiting?
    {
      hide After, Legal;
      ok := client.SetPolicy(analysis.candidatePolicy, accepted);
      steps := Take(c, s, before, Command(t, ok));
    }

    /** A step that touches nothing but the goroutine's local variables, or the clock. */
    ghost method Proceed(c: Config, s: Sys, before: seq<Step>, step: Step) returns (steps: seq<Step>)
      requires Ran(c, s, before) && Enabled(c, sys, step)
      requires step.Fire? || step.Elapse? || step.CheckCooldown? || step.AskStatus? || step.Detect? || step.Judge? || step.Choose?
      modifies this`sys
      ensures Ran(c, s, steps) && steps == before + [step] && sys == Apply(c, old(sys), step)
    {
      hide ShiftOf, Score, Samples, IsChoice, Replay, After, Legal;
      steps := Take(c, s, before, step);
    }

    ghost method Wait(now: Time, c: Config, s: Sys, before: seq<Step>) returns (steps: seq<Step>)
      requires Ran(c, s, before) && sys.clock <= now
      modifies this`sys
      ensures Ran(c, s, steps) && steps == before + [Elapse(now - old(sys.clock))] && sys == old(sys).(clock := now)
    {
      hide Ran;
      steps := Proceed(c, s, before, Elapse(now - sys.clock));
    }

    method PerformSwitch(t: nat, analysis: Analysis, tick: Tick, ghost c: Config, ghost s: Sys, ghost before: seq<Step>)
      returns (ghost steps: seq<Step>)
      requires Ran(c, s, before) && t in sys.threads && sys.threads[t].Switching? && sys.threads[t].best == analysis
      requires sys.clock == tick.savedAt <= tick.updatedAt
      modifies this`currentPolicy, this`lastSwitchTime, this`sys, client, patternDetector
      ensures sys.clock <= tick.updatedAt
      ensures if tick.accepted then SwitchedTo(old(sys), sys, analysis.candidatePolicy, tick.updatedAt)
              else Unmoved(old(sys), sys)
      ensures Ran(c, s, steps) && t in sys.threads && sys.threads[t].Waiting?
      ensures before < steps <= before + SwitchScript(t, tick)
    {
      hide Ran;
      var ok;
      ok, steps := CommandServer(t, analysis, tick.accepted, c, s, before);
      if !ok {
        return;
      }
      steps := Wait(tick.updatedAt, c, s, steps);
      steps := UpdateState(t, analysis, tick.updatedAt, c, s, steps);
      steps := ResetDetector(t, c, s, steps);
      assert steps == before + SwitchScript(t, tick);
    }

    // ----- evaluation -----

    method BuildCandidates(view: AggregatedMetrics) returns (candidates: map<Policy, real>)
      ensures candidates == CandidatesOf(ValuesOf(view.allPoliciesMetrics))
    {
      candidates := map[];
      var remaining := view.allPoliciesMetrics.Keys;
      while remaining != {}
        invariant remaining <= view.allPoliciesMetrics.Keys
        invariant candidates.Keys == view.allPoliciesMetrics.Keys - remaining
        invariant forall p | p in candidates :: candidates[p] == view.allPoliciesMetrics[p].missRatio
        decreases |remaining|
      {
        var p :| p in remaining;
        candidates := candidates[p := view.allPoliciesMetrics[p].missRatio];
        remaining := remaining - {p};
      }
    }

    /** The comparison on the latest snapshot; Some only when a switch is recommended. */
    method Recommend(current: Policy, view: AggregatedMetrics)
      returns (chosen: Option<Analysis>, ghost best: Option<Analysis>)
      requires Components()
      ensures Recommends(costBenefitAnalyzer.Config(), metricsAggregator.history, current,
          ValuesOf(view.allPoliciesMetrics),
                         chosen, best)
    {
      hide Replay, Analyze, IsChoice;
      if |metricsAggregator.history| == 0 {
        return None, None;
      }
      var snapshot := metricsAggregator.history[|metricsAggregator.history| - 1];
      var candidates := BuildCandidates(view);
      if |candidates| == 0 {
        assert candidates.Keys == {};
        assert forall q | q in ValuesOf(view.allPoliciesMetrics) :: q in candidates;
        return None, None;
      }
      var analysis := costBenefitAnalyzer.CompareMultipleCandidates(current, snapshot.missRatio, candidates,
          snapshot.cacheSize);
      best := analysis;
      chosen := if analysis.None? || !analysis.value.shouldSwitch then None else analysis;
    }

    method Compare(t: nat, current: Policy, view: AggregatedMetrics, ghost c: Config, ghost s: Sys, ghost before: seq<Step>)
      returns (chosen: Option<Analysis>, ghost best: Option<Analysis>)
      requires Ran(c, s, before) && t in sys.threads && sys.threads[t].NeedsEvaluation?
      requires sys.threads[t].current == current && sys.threads[t].view == ValuesOf(view.allPoliciesMetrics)
      ensures Chose(c, sys, t, chosen, best)
    {
      hide After, Legal, Replay, Recommends, Chose;
      chosen, best := Recommend(current, view);
      ChooseStep(c, sys, t, chosen, best);
    }

    method EvaluateCandidates(t: nat, current: Policy, view: AggregatedMetrics, tick: Tick, ghost c: Config,
        ghost s: Sys, ghost before: seq<Step>)
      returns (ghost best: Option<Analysis>, ghost steps: seq<Step>)
      requires Ran(c, s, before) && t in sys.threads && sys.threads[t].NeedsEvaluation?
      requires sys.threads[t].current == current && sys.threads[t].view == ValuesOf(view.allPoliciesMetrics)
      requires sys.clock == tick.savedAt <= tick.updatedAt
      modifies this`currentPolicy, this`lastSwitchTime, this`sys, client, patternDetector
      ensures sys.clock <= tick.updatedAt
      ensures Ran(c, s, steps) && t in sys.threads && sys.threads[t].Waiting?
      ensures before < steps <= before + ChoiceScript(t, best) + SwitchScript(t, tick)
      ensures old(sys).history != [] && old(sys).entries == old(sys).threads[t].view ==>
          Decision(c, old(sys), sys, current, tick)
    {
      hide Ran, IsChoice, ValuesOf;
      var chosen;
      chosen, best := Compare(t, current, view, c, s, before);
      steps := Proceed(c, s, before, Choose(t, best));
      assert steps == before + ChoiceScript(t, best);
      if chosen.Some? {
        steps := PerformSwitch(t, chosen.value, tick, c, s, steps);
      }
    }

    method Ask(reading: Option<Reading>, ghost c: Config, ghost s: Sys, ghost before: seq<Step>)
      returns (reply: Option<PaperStatus>)
      requires Ran(c, s, before)
      ensures reply == StatusOf(sys.server, reading)
    {
      hide After, Legal, Replay;
      reply := client.Status(reading);
    }

    /** Asks for the status and stores it: the collection of the current metrics. */
    method Measure(t: nat, tick: Tick, ghost c: Config, ghost s: Sys, ghost before: seq<Step>)
      returns (view: AggregatedMetrics?, ghost steps: seq<Step>)
      requires Ran(c, s, before) && t in sys.threads && sys.threads[t].PastCooldown?
      requires sys.clock == tick.checkedAt <= tick.savedAt && Plausible(tick.reading)
      modifies this`sys, metricsAggregator, metricsAggregator.policyMetrics.Values
      ensures fresh(metricsAggregator.policyMetrics.Values - old(metricsAggregator.policyMetrics.Values))
      ensures Ran(c, s, steps) && t in sys.threads
      ensures sys.clock <= tick.savedAt
      ensures view == null <==> tick.reading.None?
      ensures view == null ==> Unmoved(old(sys), sys)
      ensures view != null ==>
                MeasuredAt(old(sys), sys, tick.reading.value, tick.savedAt)
                    && sys.entries == ValuesOf(view.allPoliciesMetrics)
      ensures view == null ==> sys.threads[t].Waiting? && before < steps <= before + MeasureScript(t, old(sys).server, tick)
      ensures view != null ==>
                && sys.threads[t] == Collected(old(sys).threads[t].current, ValuesOf(view.allPoliciesMetrics))
                && sys.clock == tick.savedAt && metricsAggregator.history != []
                && steps == before + MeasureScript(t, old(sys).server, tick)
    {
      hide Ran, ValuesOf;
      var reply;
      reply, steps := Request(t, tick, c, s, before);
      if reply.None? {
        return null, steps;
      }
      view, steps := SaveStatus(t, reply.value, c, s, steps, tick.savedAt);
    }

    method Request(t: nat, tick: Tick, ghost c: Config, ghost s: Sys, ghost before: seq<Step>)
      returns (reply: Option<PaperStatus>, ghost steps: seq<Step>)
      requires Ran(c, s, before) && t in sys.threads && sys.threads[t].PastCooldown?
      requires sys.clock == tick.checkedAt <= tick.savedAt && Plausible(tick.reading)
      modifies this`sys
      ensures Ran(c, s, steps) && t in sys.threads
      ensures sys.clock <= tick.savedAt
      ensures reply == StatusOf(old(sys).server, tick.reading) && Unmoved(old(sys), sys)
      ensures reply.None? ==> sys.threads[t].Waiting? && steps == before + MeasureScript(t, old(sys).server, tick)[..1]
      ensures reply.Some? ==>
                && sys.threads[t] == HasStatus(old(sys).threads[t].current, reply.value) && sys.clock == tick.savedAt
                && steps == before + MeasureScript(t, old(sys).server, tick)[..2]
    {
      reply := Ask(tick.reading, c, s, before);
      hide Ran, Apply, Enabled;
      AskStep(c, sys, t, tick.reading);
      steps := Proceed(c, s, before, AskStatus(t, reply));
      if reply.Some? {
        steps := Wait(tick.savedAt, c, s, steps);
      }
    }

    method SaveStatus(t: nat, status: PaperStatus, ghost c: Config, ghost s: Sys, ghost before: seq<Step>, now: Time)
      returns (view: AggregatedMetrics, ghost steps: seq<Step>)
      requires Ran(c, s, before) && t in sys.threads && sys.threads[t].HasStatus? && sys.threads[t].status == status
      requires sys.clock == now
      modifies this`sys, metricsAggregator, metricsAggregator.policyMetrics.Values
      ensures fresh(metricsAggregator.policyMetrics.Values - old(metricsAggregator.policyMetrics.Values))
      ensures Ran(c, s, steps) && steps == before + [Save(t)] && t in sys.threads && sys.clock == now
      ensures sys.threads[t] == Collected(old(sys).threads[t].current, ValuesOf(view.allPoliciesMetrics))
      ensures metricsAggregator.history != []
      ensures Unmoved(old(sys).(entries := sys.entries, history := sys.history), sys)
      ensures sys.entries == ValuesOf(view.allPoliciesMetrics) ==
          Store(old(sys).entries, Measurement(status.policy, status.missRatio, now))
      ensures sys.history == Push(old(sys).history, MAX_HISTORY, SnapshotOf(status, now)) != []
    {
      hide After, Legal, ValuesOf, Last, Push, Store, Replay;
      view := StoreStatus(status, now);
      SaveStep(c, sys, t);
      hide Apply, Enabled, Components;
      steps := Take(c, s, before, Save(t));
    }

    method StoreStatus(status: PaperStatus, now: Time) returns (view: AggregatedMetrics)
      requires Components()
      modifies metricsAggregator, metricsAggregator.policyMetrics.Values
      ensures fresh(metricsAggregator.policyMetrics.Values - old(metricsAggregator.policyMetrics.Values))
      ensures Components()
      ensures Replay(metricsAggregator.measured) ==
          Store(old(Replay(metricsAggregator.measured)), Measurement(status.policy, status.missRatio, now))
      ensures metricsAggregator.history == Push(old(metricsAggregator.history), MAX_HISTORY, SnapshotOf(status, now)) != []
      ensures ValuesOf(view.allPoliciesMetrics) == Replay(metricsAggregator.measured)
    {
      ghost var measured, collected := metricsAggregator.measured, metricsAggregator.collected;
      StoredMeasurement(measured, Measurement(status.policy, status.missRatio, now));
      PushKeepsLast(collected, MAX_HISTORY, SnapshotOf(status, now));
      LastNonEmpty(collected, SnapshotOf(status, now));
      hide ValuesOf, Last, Push, Store, Replay;
      var v := metricsAggregator.CollectCurrentMetrics(Some(status), now);
      view := v;
    }

    /** Pattern shift and trend; true when the candidates have to be evaluated. */
    method Diagnose(t: nat, current: Policy, ghost c: Config, ghost s: Sys, ghost before: seq<Step>)
      returns (needed: bool, ghost steps: seq<Step>)
      requires Ran(c, s, before) && t in sys.threads && sys.threads[t].Collected? && sys.threads[t].current == current
      requires metricsAggregator.history != []
      modifies this`sys
      ensures Ran(c, s, steps) && steps == before + [Detect(t), Judge(t)] && t in sys.threads && sys.clock == old(sys).clock
      ensures Unmoved(old(sys), sys) && needed == Cause(c, old(sys).log, old(sys).history, current)
      ensures if needed
              then sys.threads[t].NeedsEvaluation? && sys.threads[t].current == current
                  && sys.threads[t].view == old(sys).threads[t].view
              else sys.threads[t].Waiting?
    {
      var shift, degrading := ReadSignals(current, c, s, before);
      hide Ran, ShiftOf, Score, Samples, Apply, Enabled;
      needed := shift || degrading;
      DetectStep(c, sys, t);
      steps := Proceed(c, s, before, Detect(t));
      JudgeStep(c, sys, t);
      steps := Proceed(c, s, steps, Judge(t));
    }

    method ReadSignals(current: Policy, ghost c: Config, ghost s: Sys, ghost before: seq<Step>)
      returns (shift: bool, degrading: bool)
      requires Ran(c, s, before)
      ensures shift == ShiftOf(c.sqrt, sys.log, c.windowSize).detected
      ensures degrading == Score(c.thresholds, sys.history, current).indicatesDegradation
      ensures sys.history == metricsAggregator.history
    {
      hide After, Legal, Replay, ShiftOf, Score;
      var patternShift := patternDetector.DetectShift();
      var trend := trendAnalyzer.AnalyzeTrend(metricsAggregator.history, current);
      return patternShift.detected, trend.indicatesDegradation;
    }

    /** One tick: exactly the steps of the script, up to the point where the evaluation ends. */
    method EvaluationLoop(t: nat, tick: Tick) returns (ghost best: Option<Analysis>, ghost steps: seq<Step>)
      requires Ready() && t in sys.threads && sys.threads[t].Waiting?
      requires Monotone(sys.clock, tick) && Plausible(tick.reading)
      modifies this`currentPolicy, this`lastSwitchTime, this`sys, client, patternDetector, metricsAggregator,
          metricsAggregator.policyMetrics.Values
      ensures sys.clock <= tick.updatedAt
      ensures fresh(metricsAggregator.policyMetrics.Values - old(metricsAggregator.policyMetrics.Values))
      ensures Ready() && Performed(Settings(), old(sys), steps, sys, t)
      ensures |steps| >= 3 && steps <= Script(t, old(sys), tick, best)
      ensures Outcome(Settings(), old(sys), sys, tick)
      ensures |sys.switches| == |old(sys).switches| + 1 <==>
                && tick.checkedAt - old(lastSwitchTime) >= stabilityPeriod && tick.reading.Some? && tick.accepted
                && Cause(Settings(), old(patternDetector.accessLog), metricsAggregator.history, old(currentPolicy))
                && Better(costBenefitAnalyzer.Config(), old(currentPolicy), metricsAggregator.Entries(),
                          tick.reading.value.missRatio, tick.reading.value.maxSize)
      ensures if |sys.switches| == |old(sys).switches| + 1
              then && currentPolicy == client.active && lastSwitchTime == tick.updatedAt
                   && patternDetector.accessLog == [] && patternDetector.recorded == []
                   && BestOf(costBenefitAnalyzer.Config(), old(currentPolicy), metricsAggregator.Entries(),
                             tick.reading.value.missRatio, tick.reading.value.maxSize, currentPolicy)
              else && currentPolicy == old(currentPolicy) && client.active == old(client.active)
                   && lastSwitchTime == old(lastSwitchTime) && patternDetector.accessLog == old(patternDetector.accessLog)
    {
      ghost var c, s := Settings(), sys;
      WaitingAgrees(c, s, t);
      var current, last := currentPolicy, lastSwitchTime;
      best, steps := Evaluate(t, tick, current, last, c, s);
      RunsKeepInv(c, s, steps);
      OutcomeSwitches(c, s, sys, tick);
      hide Outcome, Better, BestOf, Cause, Inv, Legal, After;
    }

    method Evaluate(t: nat, tick: Tick, current: Policy, last: Time, ghost c: Config, ghost s: Sys)
      returns (ghost best: Option<Analysis>, ghost steps: seq<Step>)
      requires Ran(c, s, []) && t in sys.threads && sys.threads[t].Waiting?
      requires current == sys.currentPolicy && last == sys.lastSwitchTime && c.stabilityPeriod == stabilityPeriod
      requires Monotone(sys.clock, tick) && Plausible(tick.reading)
      modifies this`currentPolicy, this`lastSwitchTime, this`sys, client, patternDetector, metricsAggregator,
          metricsAggregator.policyMetrics.Values
      ensures sys.clock <= tick.updatedAt
      ensures fresh(metricsAggregator.policyMetrics.Values - old(metricsAggregator.policyMetrics.Values))
      ensures Ran(c, s, steps) && t in sys.threads && sys.threads[t].Waiting?
      ensures |steps| >= 3 && steps <= Script(t, old(sys), tick, best)
      ensures old(sys).server == current ==> Outcome(c, old(sys), sys, tick)
    {
      hide Ran, ValuesOf, MeasuredAt, SwitchedTo, Cause, Better, BestOf;
      ghost var first := sys;
      best := None;
      steps := CheckStability(t, tick, current, last, c, s);
      if tick.checkedAt - last < stabilityPeriod {
        return;
      }
      ghost var checked := sys;
      best, steps := Assess(t, tick, current, c, s, steps);
      if first.server == current {
        OutcomeEarlier(c, first, checked, sys, tick);
      }
    }

    method CheckStability(t: nat, tick: Tick, current: Policy, last: Time, ghost c: Config, ghost s: Sys)
      returns (ghost steps: seq<Step>)
      requires Ran(c, s, []) && t in sys.threads && sys.threads[t].Waiting?
      requires current == sys.currentPolicy && last == sys.lastSwitchTime && c.stabilityPeriod == stabilityPeriod
      requires Monotone(sys.clock, tick)
      modifies this`sys
      ensures Ran(c, s, steps) && t in sys.threads && sys.clock == tick.checkedAt && Unmoved(old(sys), sys)
      ensures sys.threads[t] == if tick.checkedAt - last < stabilityPeriod then Waiting else PastCooldown(current)
      ensures steps == CooldownScript(t, old(sys).clock, tick)
    {
      hide Ran, Apply, Enabled;
      FireStep(c, sys, t);
      steps := Proceed(c, s, [], Fire(t));
      steps := Wait(tick.checkedAt, c, s, steps);
      CheckStep(c, sys, t);
      steps := Proceed(c, s, steps, CheckCooldown(t));
    }

    method Assess(t: nat, tick: Tick, current: Policy, ghost c: Config, ghost s: Sys, ghost before: seq<Step>)
      returns (ghost best: Option<Analysis>, ghost steps: seq<Step>)
      requires Ran(c, s, before) && t in sys.threads && sys.threads[t] == PastCooldown(current)
      requires sys.clock == tick.checkedAt && Monotone(sys.clock, tick) && Plausible(tick.reading)
      modifies this`currentPolicy, this`lastSwitchTime, this`sys, client, patternDetector, metricsAggregator,
          metricsAggregator.policyMetrics.Values
      ensures sys.clock <= tick.updatedAt
      ensures fresh(metricsAggregator.policyMetrics.Values - old(metricsAggregator.policyMetrics.Values))
      ensures Ran(c, s, steps) && t in sys.threads && sys.threads[t].Waiting?
      ensures before < steps
      ensures old(sys).server == current == old(sys).currentPolicy ==>
                tick.checkedAt - old(sys).lastSwitchTime >= c.stabilityPeriod ==> Outcome(c, old(sys), sys, tick)
      ensures steps <= before
          + (MeasureScript(t, old(sys).server, tick)
              + ([Detect(t), Judge(t)] + ChoiceScript(t, best) + SwitchScript(t, tick)))
    {
      hide Ran, ValuesOf, Better, BestOf, Cause, Store, Push, SwitchedTo;
      best := None;
      ghost var first := sys;
      var view;
      view, steps := Measure(t, tick, c, s, before);
      if view == null {
        return;
      }
      ghost var mid := sys;
      var needed;
      needed, steps := Diagnose(t, current, c, s, steps);
      if needed {
        ghost var diagnosed := sys;
        best, steps := EvaluateCandidates(t, current, view, tick, c, s, steps);
        DecisionEarlier(c, mid, diagnosed, sys, current, tick);
      }
      if first.server == current == first.currentPolicy && tick.checkedAt - first.lastSwitchTime >= c.stabilityPeriod {
        AssessOutcome(c, first, mid, sys, tick);
      }
    }

    // ----- start and stop -----

    /** Closes the stop channel; closing it a second time is a panic and changes nothing. */
    method Stop() returns (panicked: bool)
      requires Ready()
      modifies this`stopClosed, this`sys
      ensures Ready() && stopClosed && panicked == old(stopClosed)
      ensures sys == if panicked then old(sys) else Apply(Settings(), old(sys), Protocol.Step.Stop)
    {
      if stopClosed {
        return true;
      }
      StepKeepsThreads(Settings(), sys, Protocol.Step.Stop);
      StepKeepsHistory(Settings(), sys, Protocol.Step.Stop);
      hide Inv;
      stopClosed := true;
      sys := Apply(Settings(), sys, Protocol.Step.Stop);
      return false;
    }

    /** Claims the loop for goroutine t unless one is running. */
    method Claim(t: nat) returns (ok: bool)
      requires Ready() && t !in sys.threads
      modifies this`isRunning, this`sys
      ensures Ready() && ok == !old(isRunning) && sys == Apply(Settings(), old(sys), Protocol.Step.Start(t))
    {
      StepKeepsThreads(Settings(), sys, Protocol.Step.Start(t));
      StepKeepsHistory(Settings(), sys, Protocol.Step.Start(t));
      hide Inv;
      ok := !isRunning;
      sys := Apply(Settings(), sys, Protocol.Step.Start(t));
      isRunning := true;
    }

    /** Leaves the loop on the stop signal. */
    method Leave(t: nat)
      requires Ready() && t in sys.threads && sys.threads[t].Waiting? && stopClosed
      modifies this`isRunning, this`sys
      ensures Ready() && !isRunning && t !in sys.threads
      ensures Legal(Settings(), old(sys), [SeeStop(t), Finish(t)])
          && sys == After(Settings(), old(sys), [SeeStop(t), Finish(t)])
    {
      ghost var c := Settings();
      OneStep(c, sys, SeeStop(t));
      Extend(c, sys, [SeeStop(t)], Finish(t));
      assert [SeeStop(t)] + [Finish(t)] == [SeeStop(t), Finish(t)];
      RunsKeepInv(c, sys, [SeeStop(t), Finish(t)]);
      hide Inv;
      sys := After(c, sys, [SeeStop(t), Finish(t)]);
      isRunning := false;
    }

    /** Ready, and at the end of a run of `steps` from s. */
    ghost predicate Running(c: Config, s: Sys, steps: seq<Step>)
      reads this, client, metricsAggregator, metricsAggregator.policyMetrics.Values, patternDetector, trendAnalyzer,
          costBenefitAnalyzer
    {
      Ready() && Settings() == c && Legal(c, s, steps) && After(c, s, steps) == sys
    }

    /** The loop of goroutine t waits for its next event. */
    ghost predicate WaitsIn(t: nat)
      reads this
    {
      t in sys.threads && sys.threads[t].Waiting? && sys.isRunning && isRunning
    }

    /**
      Runs the evaluation loop for goroutine t over the given events. Without a stop signal the loop is still
      waiting for its next event afterwards; a Start while another loop is running changes nothing.
     */
    method Start(t: nat, events: seq<Event>) returns (ok: bool, ghost steps: seq<Step>)
      requires Ready() && t !in sys.threads && Timely(sys.clock, events)
      modifies this, client, patternDetector, metricsAggregator, metricsAggregator.policyMetrics.Values
      ensures Running(old(Settings()), old(sys), steps)
      ensures ok == !old(isRunning)
      ensures !ok ==> sys == old(sys)
      ensures ok ==> [Protocol.Step.Start(t)] <= steps && (WaitsIn(t) || (t !in sys.threads && !isRunning))
      ensures FromEvents(steps, events)
      ensures forall ratio | Undisturbed(old(Settings()), old(sys), events, ratio) :: KeptPolicy(old(sys), sys)
      ensures old(sys).currentPolicy in old(sys).entries ==> sys.entries.Keys == old(sys).entries.Keys
    {
      ghost var c, s := Settings(), sys;
      ok, steps := Enter(t);
      if ok {
        steps := Serve(t, events, c, s, steps);
      }
      RunIsUndisturbed(c, s, steps, events, ok);
      if s.currentPolicy in s.entries {
        MeasuredFixed(c, s, steps);
      }
    }

    method Enter(t: nat) returns (ok: bool, ghost steps: seq<Step>)
      requires Ready() && t !in sys.threads
      modifies this`isRunning, this`sys
      ensures Running(old(Settings()), old(sys), steps) && steps == [Protocol.Step.Start(t)] && ok == !old(isRunning)
      ensures sys.clock == old(sys).clock && if ok then WaitsIn(t) else sys == old(sys)
    {
      OneStep(Settings(), sys, Protocol.Step.Start(t));
      steps := [Protocol.Step.Start(t)];
      hide Inv;
      ok := Claim(t);
    }

    method Serve(t: nat, events: seq<Event>, ghost c: Config, ghost s: Sys, ghost before: seq<Step>)
      returns (ghost steps: seq<Step>)
      requires Running(c, s, before) && WaitsIn(t) && Timely(sys.clock, events) && FromEvents(before, events)
      modifies this, client, patternDetector, metricsAggregator, metricsAggregator.policyMetrics.Values
      ensures Running(c, s, steps) && before <= steps && (WaitsIn(t) || (t !in sys.threads && !isRunning))
      ensures FromEvents(steps, events)
    {
      hide Running, Ready, WaitsIn, Legal, After;
      steps := before;
      var i := 0;
      assert events[0..] == events;
      while i < |events|
        invariant i <= |events| && Running(c, s, steps) && WaitsIn(t) && before <= steps
        invariant Timely(sys.clock, events[i..]) && FromEvents(steps, events)
        invariant fresh(metricsAggregator.policyMetrics.Values - old(metricsAggregator.policyMetrics.Values))
      {
        var stopped;
        assert events[i..][1..] == events[i + 1..];
        ghost var earlier := steps;
        stopped, steps := HandleEvent(t, events[i..], c, s, steps);
        SinceFrom(earlier, steps, events[i], events);
        if stopped {
          return;
        }
        i := i + 1;
      }
    }

    method HandleTick(t: nat, tick: Tick, ghost c: Config, ghost s: Sys, ghost before: seq<Step>)
      returns (ghost steps: seq<Step>)
      requires Running(c, s, before) && WaitsIn(t) && Monotone(sys.clock, tick) && Plausible(tick.reading)
      modifies this`currentPolicy, this`lastSwitchTime, this`sys, client, patternDetector, metricsAggregator,
          metricsAggregator.policyMetrics.Values
      ensures Running(c, s, steps) && WaitsIn(t) && before <= steps && sys.clock <= tick.updatedAt
      ensures Since(steps, |before|, Ticked(tick))
      ensures fresh(metricsAggregator.policyMetrics.Values - old(metricsAggregator.policyMetrics.Values))
    {
      hide Inv;
      ghost var best, more;
      ghost var start := sys;
      best, more := EvaluationLoop(t, tick);
      ScriptSince(before, more, t, start, tick, best);
      Concatenate(c, s, before, more);
      steps := before + more;
    }

    method HandleAccess(t: nat, key: string, isHit: bool, at: Time, ghost c: Config, ghost s: Sys, ghost before: seq<Step>)
      returns (ghost steps: seq<Step>)
      requires Running(c, s, before) && WaitsIn(t)
      modifies this`sys, patternDetector
      ensures Running(c, s, steps) && WaitsIn(t) && before <= steps && sys.clock == old(sys).clock
      ensures forall event :: Since(steps, |before|, event)
    {
      hide Inv;
      Extend(c, s, before, Access(CacheAccess(key, at, isHit)));
      RecordAccess(key, isHit, at);
      steps := before + [Access(CacheAccess(key, at, isHit))];
      forall event
        ensures Since(steps, |before|, event)
      {
        QuietSince(before, [Access(CacheAccess(key, at, isHit))], event);
      }
    }

    method HandleStop(t: nat, ghost c: Config, ghost s: Sys, ghost before: seq<Step>) returns (ghost steps: seq<Step>)
      requires Running(c, s, before) && WaitsIn(t) && !stopClosed
      modifies this`stopClosed, this`sys
      ensures Running(c, s, steps) && WaitsIn(t) && before <= steps && sys.clock == old(sys).clock
      ensures forall event :: Since(steps, |before|, event)
    {
      hide Inv;
      Extend(c, s, before, Protocol.Step.Stop);
      var panicked := Stop();
      steps := before + [Protocol.Step.Stop];
      forall event
        ensures Since(steps, |before|, event)
      {
        QuietSince(before, [Protocol.Step.Stop], event);
      }
    }

    method HandleSignal(t: nat, ghost c: Config, ghost s: Sys, ghost before: seq<Step>) returns (ghost steps: seq<Step>)
      requires Running(c, s, before) && WaitsIn(t) && stopClosed
      modifies this`isRunning, this`sys
      ensures Running(c, s, steps) && before <= steps && t !in sys.threads && !isRunning
      ensures forall event :: Since(steps, |before|, event)
    {
      hide Inv;
      Leave(t);
      Concatenate(c, s, before, [SeeStop(t), Finish(t)]);
      steps := before + [SeeStop(t), Finish(t)];
      forall event
        ensures Since(steps, |before|, event)
      {
        QuietSince(before, [SeeStop(t), Finish(t)], event);
      }
    }

    /** Handles the first event; the rest stays timely. */
    method HandleEvent(t: nat, events: seq<Event>, ghost c: Config, ghost s: Sys, ghost before: seq<Step>)
      returns (stopped: bool, ghost steps: seq<Step>)
      requires Running(c, s, before) && WaitsIn(t) && events != [] && Timely(sys.clock, events)
      modifies this, client, patternDetector, metricsAggregator, metricsAggregator.policyMetrics.Values
      ensures Running(c, s, steps) && before <= steps && Since(steps, |before|, events[0])
      ensures fresh(metricsAggregator.policyMetrics.Values - old(metricsAggregator.policyMetrics.Values))
      ensures stopped ==> t !in sys.threads && !isRunning
      ensures !stopped ==> WaitsIn(t) && Timely(sys.clock, events[1..])
    {
      hide Running, Ready, WaitsIn, Legal, After;
      stopped := false;
      steps := before;
      assert Since(steps, |before|, events[0]);
      match events[0]
      case Ticked(tick) =>
        steps := HandleTick(t, tick, c, s, before);
        TimelyEarlier(sys.clock, tick.updatedAt, events[1..]);
      case Accessed(key, isHit, at) =>
        steps := HandleAccess(t, key, isHit, at, c, s, before);
      case StopRequested =>
        if !stopClosed {
          steps := HandleStop(t, c, s, before);
        }
      case StopSignalled =>
        if stopClosed {
          steps := HandleSignal(t, c, s, before);
          stopped := true;
        }
    }
  }
}
