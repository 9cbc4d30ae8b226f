/**
  The orchestrator as a state machine (pkg/adaptive/orchestrator.go). Every step is one lock-protected section or
  one exchange with the cache server; steps of different goroutines interleave freely.
 */
module Protocol {
  import opened CacheTypes
  import opened CostBenefit
  import opened Metrics
  import opened Pattern
  import opened Trend
  import opened Window

  datatype Config = Config(stabilityPeriod: Time, params: Params, windowSize: nat, thresholds: Thresholds,
      sqrt: real -> real)

  /** Where a goroutine that called Start is, with its local variables. */
  datatype Pc =
    | Waiting
    | HasRead(current: Policy, last: Time)
    | PastCooldown(current: Policy)
    | HasStatus(current: Policy, status: PaperStatus)
    | Collected(current: Policy, view: map<Policy, Entry>)
    | ShiftKnown(current: Policy, view: map<Policy, Entry>, shift: bool)
    | NeedsEvaluation(current: Policy, view: map<Policy, Entry>, shift: bool, samples: nat)
    | Switching(best: Analysis, cacheSize: nat, shift: bool, samples: nat)
    | Commanded(best: Analysis, cacheSize: nat, shift: bool, samples: nat)
    | Updated
    | Stopping

  /** A completed switch: the live ratio of the policy left, the recorded ratio of the policy entered, and its cause. */
  datatype Switch = Switch(from: Policy, to: Policy, live: real, target: real, cacheSize: nat, at: Time,
                           shift: bool, samples: nat, accesses: nat)

  datatype Sys = Sys(
    clock: Time,
    server: Policy,
    currentPolicy: Policy,
    lastSwitchTime: Time,
    isRunning: bool,
    stopClosed: bool,
    log: seq<CacheAccess>,
    entries: map<Policy, Entry>,
    history: seq<MetricsSnapshot>,
    threads: map<nat, Pc>,
    // observations, read by no step
    initialPolicy: Policy,
    initialTime: Time,
    recorded: seq<CacheAccess>,
    switches: seq<Switch>)

  datatype Step =
    | Elapse(duration: nat)
    | Access(access: CacheAccess)
    | Start(t: nat)
    | Stop
    | Fire(t: nat)
    | CheckCooldown(t: nat)
    | AskStatus(t: nat, reply: Option<PaperStatus>)
    | Save(t: nat)
    | Detect(t: nat)
    | Judge(t: nat)
    | Choose(t: nat, best: Option<Analysis>)
    | Command(t: nat, accepted: bool)
    | Update(t: nat)
    | Reset(t: nat)
    | SeeStop(t: nat)
    | Finish(t: nat)

  function CandidatesOf(view: map<Policy, Entry>): map<Policy, real> {
    map p | p in view :: view[p].missRatio
  }

  function Latest(s: Sys): MetricsSnapshot
    requires s.history != []
  {
    s.history[|s.history| - 1]
  }

  ghost predicate Enabled(c: Config, s: Sys, step: Step) {
    match step
    case Elapse(_) => true
    case Access(_) => true
    case Start(t) => t !in s.threads
    case Stop => !s.stopClosed
    case Fire(t) => t in s.threads && s.threads[t].Waiting?
    case CheckCooldown(t) => t in s.threads && s.threads[t].HasRead?
    case AskStatus(t, reply) =>
      && t in s.threads && s.threads[t].PastCooldown?
      && (reply.Some? ==> reply.value.policy == s.server && 0.0 <= reply.value.missRatio <= 1.0)
    case Save(t) => t in s.threads && s.threads[t].HasStatus?
    case Detect(t) => t in s.threads && s.threads[t].Collected?
    case Judge(t) => t in s.threads && s.threads[t].ShiftKnown?
    case Choose(t, best) =>
      && t in s.threads && s.threads[t].NeedsEvaluation?
      && (s.history != [] ==>
            IsChoice(c.params, s.threads[t].current, Latest(s).missRatio, CandidatesOf(s.threads[t].view),
                Latest(s).cacheSize, best))
    case Command(t, _) => t in s.threads && s.threads[t].Switching?
    case Update(t) => t in s.threads && s.threads[t].Commanded?
    case Reset(t) => t in s.threads && s.threads[t].Updated?
    case SeeStop(t) => t in s.threads && s.threads[t].Waiting? && s.stopClosed
    case Finish(t) => t in s.threads && s.threads[t].Stopping?
  }

  function Goto(s: Sys, t: nat, pc: Pc): Sys {
    s.(threads := s.threads[t := pc])
  }

  ghost function Apply(c: Config, s: Sys, step: Step): Sys
    requires Enabled(c, s, step)
  {
    match step
    case Elapse(d) => s.(clock := s.clock + d)
    case Access(a) => s.(log := Push(s.log, c.windowSize, a), recorded := s.recorded + [a])
    // a second Start answers with an error and changes nothing
    case Start(t) => if s.isRunning then s else Goto(s.(isRunning := true), t, Waiting)
    case Stop => s.(stopClosed := true)
    case Fire(t) => Goto(s, t, HasRead(s.currentPolicy, s.lastSwitchTime))
    case CheckCooldown(t) =>
      var pc := s.threads[t];
      Goto(s, t, if s.clock - pc.last < c.stabilityPeriod then Waiting else PastCooldown(pc.current))
    case AskStatus(t, reply) =>
      Goto(s, t, if reply.None? then Waiting else HasStatus(s.threads[t].current, reply.value))
    case Save(t) =>
      var pc := s.threads[t];
      var entries := Store(s.entries, Measurement(pc.status.policy, pc.status.missRatio, s.clock));
      Goto(s.(entries := entries, history := Push(s.history, MAX_HISTORY, SnapshotOf(pc.status, s.clock))), t,
          Collected(pc.current, entries))
    case Detect(t) =>
      var pc := s.threads[t];
      Goto(s, t, if s.history == [] then Waiting
                 else ShiftKnown(pc.current, pc.view, ShiftOf(c.sqrt, s.log, c.windowSize).detected))
    case Judge(t) =>
      var pc := s.threads[t];
      Goto(s, t, if pc.shift || Score(c.thresholds, s.history, pc.current).indicatesDegradation
                 then NeedsEvaluation(pc.current, pc.view, pc.shift, |Samples(s.history, pc.current)|)
                 else Waiting)
    case Choose(t, best) =>
      var pc := s.threads[t];
      Goto(s, t, if s.history == [] || pc.view == map[] || best.None? || !best.value.shouldSwitch then Waiting
                 else Switching(best.value, Latest(s).cacheSize, pc.shift, pc.samples))
    case Command(t, accepted) =>
      var pc := s.threads[t];
      if accepted
      then Goto(s.(server := pc.best.candidatePolicy), t, Commanded(pc.best, pc.cacheSize, pc.shift, pc.samples))
      else Goto(s, t, Waiting)
    case Update(t) =>
      var pc := s.threads[t];
      var done := Switch(pc.best.currentPolicy, pc.best.candidatePolicy, pc.best.currentMissRatio,
          pc.best.candidateMissRatio,
                         pc.cacheSize, s.clock, pc.shift, pc.samples, |s.recorded|);
      Goto(s.(currentPolicy := pc.best.candidatePolicy, lastSwitchTime := s.clock, switches := s.switches + [done]),
          t, Updated)
    case Reset(t) => Goto(s.(log := [], recorded := []), t, Waiting)
    case SeeStop(t) => Goto(s, t, Stopping)
    case Finish(t) => s.(isRunning := false, threads := s.threads - {t})
  }

  // ----- runs -----

  ghost predicate Legal(c: Config, s: Sys, steps: seq<Step>)
    decreases |steps|, 0
  {
    steps == [] ||
    (Legal(c, s, steps[..|steps| - 1]) && Enabled(c, After(c, s, steps[..|steps| - 1]), steps[|steps| - 1]))
  }

  ghost function After(c: Config, s: Sys, steps: seq<Step>): Sys
    requires Legal(c, s, steps)
    decreases |steps|, 1
  {
    if steps == [] then s
    else Apply(c, After(c, s, steps[..|steps| - 1]), steps[|steps| - 1])
  }

  ghost predicate UnitRatios(entries: map<Policy, Entry>) {
    forall p | p in entries :: 0.0 <= entries[p].missRatio <= 1.0
  }

  /** What a successful Initialize leaves behind. */
  ghost predicate Init(c: Config, s: Sys) {
    && s.server == s.currentPolicy == s.initialPolicy
    && s.lastSwitchTime == s.initialTime <= s.clock
    && !s.isRunning && s.threads == map[]
    && s.log == Last(c.windowSize, s.recorded)
    && UnitRatios(s.entries)
    && s.switches == []
  }

  // ----- invariant of the threads -----

  /** The snapshot and the entry of the current policy agree, and the goroutine's view is up to date. */
  ghost predicate FreshView(s: Sys, current: Policy, view: map<Policy, Entry>) {
    && view == s.entries && current in view
    && s.history != [] && Latest(s).currentPolicy == current && Latest(s).missRatio == view[current].missRatio
  }

  ghost predicate CooledDown(c: Config, s: Sys) {
    s.clock - s.lastSwitchTime >= c.stabilityPeriod
  }

  ghost predicate Caused(c: Config, s: Sys, shift: bool, samples: nat) {
    && (shift ==> |s.recorded| >= c.windowSize)
    && (shift || samples >= c.thresholds.minSamples)
  }

  ghost predicate Decided(c: Config, s: Sys, best: Analysis, cacheSize: nat) {
    && s.currentPolicy in s.entries
    && best.currentPolicy == s.currentPolicy && best.currentMissRatio == s.entries[s.currentPolicy].missRatio
    && IsChoice(c.params, s.currentPolicy, best.currentMissRatio, CandidatesOf(s.entries), cacheSize, Some(best))
    && best.shouldSwitch
  }

  ghost predicate PcOk(c: Config, s: Sys, pc: Pc) {
    && (!pc.Commanded? ==> s.server == s.currentPolicy)
    && match pc
       case Waiting => true
       case HasRead(current, last) => current == s.currentPolicy && last == s.lastSwitchTime
       case PastCooldown(current) => current == s.currentPolicy && CooledDown(c, s)
       case HasStatus(current, status) =>
         current == status.policy == s.currentPolicy && CooledDown(c, s) && 0.0 <= status.missRatio <= 1.0
       case Collected(current, view) => current == s.currentPolicy && CooledDown(c, s) && FreshView(s, current, view)
       case ShiftKnown(current, view, shift) =>
         && current == s.currentPolicy && CooledDown(c, s) && FreshView(s, current, view)
         && (shift ==> |s.recorded| >= c.windowSize)
       case NeedsEvaluation(current, view, shift, samples) =>
         && current == s.currentPolicy && CooledDown(c, s) && FreshView(s, current, view)
         && Caused(c, s, shift, samples)
       case Switching(best, cacheSize, shift, samples) =>
         CooledDown(c, s) && Decided(c, s, best, cacheSize) && Caused(c, s, shift, samples)
       case Commanded(best, cacheSize, shift, samples) =>
         && CooledDown(c, s) && Decided(c, s, best, cacheSize) && Caused(c, s, shift, samples)
         && s.server == best.candidatePolicy
       case Updated => true
       case Stopping => s.stopClosed
  }

  ghost predicate ThreadsOk(c: Config, s: Sys) {
    && (forall t, u | t in s.threads && u in s.threads :: t == u)
    && (s.isRunning <==> s.threads != map[])
    && (forall t | t in s.threads :: PcOk(c, s, s.threads[t]))
    && (s.threads == map[] ==> s.server == s.currentPolicy)
    && s.log == Last(c.windowSize, s.recorded)
    && s.lastSwitchTime <= s.clock
    && UnitRatios(s.entries)
  }

  lemma OnlyThread(c: Config, s: Sys, t: nat)
    requires ThreadsOk(c, s) && t in s.threads
    ensures s.threads == map[t := s.threads[t]]
    ensures forall pc :: s.threads[t := pc] == map[t := pc]
    ensures s.threads - {t} == map[]
  {
  }

  lemma EnvironmentKeepsThreads(c: Config, s: Sys, step: Step)
    requires ThreadsOk(c, s) && Enabled(c, s, step)
    requires step.Elapse? || step.Access? || step.Start? || step.Stop?
    ensures ThreadsOk(c, Apply(c, s, step))
  {
    hide ShiftOf, Score, Samples, IsChoice, Analyze;
    if step.Access? {
      PushKeepsLast(s.recorded, c.windowSize, step.access);
    }
  }

  lemma MeasureKeepsThreads(c: Config, s: Sys, step: Step)
    requires ThreadsOk(c, s) && Enabled(c, s, step)
    requires step.Fire? || step.CheckCooldown? || step.AskStatus? || step.Save?
    ensures ThreadsOk(c, Apply(c, s, step))
  {
    hide ShiftOf, Score, Samples, IsChoice, Analyze;
    OnlyThread(c, s, step.t);
  }

  lemma DetectKeepsThreads(c: Config, s: Sys, t: nat)
    requires ThreadsOk(c, s) && Enabled(c, s, Detect(t))
    ensures ThreadsOk(c, Apply(c, s, Detect(t)))
  {
    ShiftNeedsWindow(c.sqrt, s.log, c.windowSize);
    hide ShiftOf;
    OnlyThread(c, s, t);
  }

  lemma JudgeKeepsThreads(c: Config, s: Sys, t: nat)
    requires ThreadsOk(c, s) && Enabled(c, s, Judge(t))
    ensures ThreadsOk(c, Apply(c, s, Judge(t)))
  {
    ScoreNeedsSamples(c.thresholds, s.history, s.threads[t].current);
    hide Score, Samples;
    OnlyThread(c, s, t);
  }

  lemma ChooseKeepsThreads(c: Config, s: Sys, t: nat, best: Option<Analysis>)
    requires ThreadsOk(c, s) && Enabled(c, s, Choose(t, best))
    ensures ThreadsOk(c, Apply(c, s, Choose(t, best)))
  {
    hide ShiftOf, Score, Samples;
    OnlyThread(c, s, t);
  }

  lemma ActKeepsThreads(c: Config, s: Sys, step: Step)
    requires ThreadsOk(c, s) && Enabled(c, s, step)
    requires step.Command? || step.Update? || step.Reset? || step.SeeStop? || step.Finish?
    ensures ThreadsOk(c, Apply(c, s, step))
  {
    hide ShiftOf, Score, Samples, IsChoice, Analyze;
    OnlyThread(c, s, step.t);
  }

  lemma StepKeepsThreads(c: Config, s: Sys, step: Step)
    requires ThreadsOk(c, s) && Enabled(c, s, step)
    ensures ThreadsOk(c, Apply(c, s, step))
  {
    match step
    case Elapse(_) => EnvironmentKeepsThreads(c, s, step);
    case Access(_) => EnvironmentKeepsThreads(c, s, step);
    case Start(_) => EnvironmentKeepsThreads(c, s, step);
    case Stop => EnvironmentKeepsThreads(c, s, step);
    case Fire(_) => MeasureKeepsThreads(c, s, step);
    case CheckCooldown(_) => MeasureKeepsThreads(c, s, step);
    case AskStatus(_, _) => MeasureKeepsThreads(c, s, step);
    case Save(_) => MeasureKeepsThreads(c, s, step);
    case Detect(t) => DetectKeepsThreads(c, s, t);
    case Judge(t) => JudgeKeepsThreads(c, s, t);
    case Choose(t, best) => ChooseKeepsThreads(c, s, t, best);
    case Command(_, _) => ActKeepsThreads(c, s, step);
    case Update(_) => ActKeepsThreads(c, s, step);
    case Reset(_) => ActKeepsThreads(c, s, step);
    case SeeStop(_) => ActKeepsThreads(c, s, step);
    case Finish(_) => ActKeepsThreads(c, s, step);
  }

  // ----- invariant of the switch history -----

  ghost predicate Departed(w: seq<Switch>, i: nat, until: nat)
    requires i < until <= |w|
  {
    forall k | i < k < until :: w[k].from != w[i].from
  }

  ghost predicate GoodSwitch(c: Config, w: Switch) {
    && w.from != w.to
    && 0.0 <= w.live <= 1.0 && 0.0 <= w.target <= 1.0
    && Analyze(c.params, w.from, w.to, w.live, w.target, w.cacheSize).shouldSwitch
    && (w.shift ==> w.accesses >= c.windowSize)
    && (w.shift || w.samples >= c.thresholds.minSamples)
  }

  ghost predicate Good(c: Config, w: seq<Switch>) {
    forall i | 0 <= i < |w| :: GoodSwitch(c, w[i])
  }

  /** Time of the last switch among the first k, or of the initial selection. */
  ghost function SwitchTime(w: seq<Switch>, start: Time, k: nat): Time
    requires k <= |w|
  {
    if k == 0 then start else w[k - 1].at
  }

  ghost predicate Spaced(w: seq<Switch>, start: Time, period: Time) {
    forall i | 0 <= i < |w| :: w[i].at - SwitchTime(w, start, i) >= period
  }

  /** Policy in force after the first k switches. */
  ghost function PolicyAfter(w: seq<Switch>, start: Policy, k: nat): Policy
    requires k <= |w|
  {
    if k == 0 then start else w[k - 1].to
  }

  ghost predicate Chained(w: seq<Switch>, start: Policy) {
    forall i | 0 <= i < |w| :: w[i].from == PolicyAfter(w, start, i)
  }

  /** The entry of a policy stays as it was when the policy was last left. */
  ghost predicate Frozen(w: seq<Switch>, entries: map<Policy, Entry>, current: Policy) {
    forall i | 0 <= i < |w| && Departed(w, i, |w|) && w[i].from != current ::
      w[i].from in entries && entries[w[i].from].missRatio == w[i].live
  }

  /** Returning to a policy is decided on the ratio it had when it was last left. */
  ghost predicate Returns(w: seq<Switch>) {
    forall i, j | 0 <= i < j < |w| && w[j].to == w[i].from && Departed(w, i, j) :: w[j].target == w[i].live
  }

  ghost predicate HistoryOk(c: Config, s: Sys) {
    && Good(c, s.switches)
    && Spaced(s.switches, s.initialTime, c.stabilityPeriod)
    && s.lastSwitchTime == SwitchTime(s.switches, s.initialTime, |s.switches|)
    && Chained(s.switches, s.initialPolicy)
    && s.currentPolicy == PolicyAfter(s.switches, s.initialPolicy, |s.switches|)
    && Frozen(s.switches, s.entries, s.currentPolicy)
    && Returns(s.switches)
  }

  lemma AppendSpaced(w: seq<Switch>, start: Time, period: Time, x: Switch)
    requires Spaced(w, start, period) && x.at - SwitchTime(w, start, |w|) >= period
    ensures Spaced(w + [x], start, period)
  {
    forall i | 0 <= i < |w + [x]|
      ensures (w + [x])[i].at - SwitchTime(w + [x], start, i) >= period
    {
      assert SwitchTime(w + [x], start, i) == SwitchTime(w, start, i);
    }
  }

  lemma AppendChained(w: seq<Switch>, start: Policy, x: Switch)
    requires Chained(w, start) && x.from == PolicyAfter(w, start, |w|)
    ensures Chained(w + [x], start)
  {
    forall i | 0 <= i < |w + [x]|
      ensures (w + [x])[i].from == PolicyAfter(w + [x], start, i)
    {
      assert PolicyAfter(w + [x], start, i) == PolicyAfter(w, start, i);
    }
  }

  lemma AppendFrozen(w: seq<Switch>, entries: map<Policy, Entry>, current: Policy, x: Switch)
    requires Frozen(w, entries, current)
    requires x.from == current && current in entries && entries[current].missRatio == x.live
    ensures Frozen(w + [x], entries, x.to)
  {
    var w' := w + [x];
    forall i | 0 <= i < |w'| && Departed(w', i, |w'|) && w'[i].from != x.to
      ensures w'[i].from in entries && entries[w'[i].from].missRatio == w'[i].live
    {
      if i < |w| {
        assert w'[|w|].from != w'[i].from;
        DepartedPrefix(w, x, i, |w|);
      }
    }
  }

  lemma DepartedPrefix(w: seq<Switch>, x: Switch, i: nat, until: nat)
    requires i < until <= |w| && Departed(w + [x], i, until)
    ensures Departed(w, i, until)
  {
    forall k | i < k < until
      ensures w[k].from != w[i].from
    {
      assert (w + [x])[k].from != (w + [x])[i].from;
    }
  }

  lemma AppendReturns(w: seq<Switch>, entries: map<Policy, Entry>, current: Policy, x: Switch)
    requires Returns(w) && Frozen(w, entries, current)
    requires x.to != current && x.to in entries && entries[x.to].missRatio == x.target
    ensures Returns(w + [x])
  {
    var w' := w + [x];
    forall i, j | 0 <= i < j < |w'| && w'[j].to == w'[i].from && Departed(w', i, j)
      ensures w'[j].target == w'[i].live
    {
      DepartedPrefix(w, x, i, j);
      if j == |w| {
        assert Departed(w, i, |w|) && w[i].from == x.to;
      }
    }
  }

  lemma AppendGood(c: Config, w: seq<Switch>, x: Switch)
    requires Good(c, w) && GoodSwitch(c, x)
    ensures Good(c, w + [x])
  {
  }

  lemma DecidedIsGood(c: Config, s: Sys, pc: Pc, x: Switch)
    requires pc.Commanded? && PcOk(c, s, pc) && UnitRatios(s.entries)
    requires x == Switch(pc.best.currentPolicy, pc.best.candidatePolicy, pc.best.currentMissRatio,
        pc.best.candidateMissRatio,
                         pc.cacheSize, s.clock, pc.shift, pc.samples, |s.recorded|)
    ensures GoodSwitch(c, x)
    ensures x.from == s.currentPolicy && s.entries[x.from].missRatio == x.live
    ensures x.to in s.entries && x.to != s.currentPolicy && s.entries[x.to].missRatio == x.target
    ensures x.at - s.lastSwitchTime >= c.stabilityPeriod
  {
  }

  lemma UpdateKeepsHistory(c: Config, s: Sys, step: Step)
    requires ThreadsOk(c, s) && HistoryOk(c, s) && Enabled(c, s, step) && step.Update?
    ensures HistoryOk(c, Apply(c, s, step))
  {
    hide ShiftOf, Score, Samples, IsChoice, Analyze, Good, Returns, Spaced, Chained;
    var s' := Apply(c, s, step);
    var x := s'.switches[|s.switches|];
    DecidedIsGood(c, s, s.threads[step.t], x);
    AppendGood(c, s.switches, x);
    AppendSpaced(s.switches, s.initialTime, c.stabilityPeriod, x);
    AppendChained(s.switches, s.initialPolicy, x);
    AppendFrozen(s.switches, s.entries, s.currentPolicy, x);
    AppendReturns(s.switches, s.entries, s.currentPolicy, x);
  }

  lemma StepKeepsHistory(c: Config, s: Sys, step: Step)
    requires ThreadsOk(c, s) && HistoryOk(c, s) && Enabled(c, s, step)
    ensures HistoryOk(c, Apply(c, s, step))
  {
    hide ShiftOf, Score, Samples, IsChoice, Analyze, Good, Returns, Spaced, Chained;
    if step.Update? {
      UpdateKeepsHistory(c, s, step);
    } else if step.Save? {
      assert PcOk(c, s, s.threads[step.t]);
    }
  }

  ghost predicate Inv(c: Config, s: Sys) {
    ThreadsOk(c, s) && HistoryOk(c, s)
  }

  /** The invariant holds after every interleaving of every number of steps. */
  lemma {:induction false} RunsKeepInv(c: Config, s: Sys, steps: seq<Step>)
    requires Inv(c, s) && Legal(c, s, steps)
    ensures Inv(c, After(c, s, steps))
  {
    if steps == [] {
    } else {
      var front := steps[..|steps| - 1];
      RunsKeepInv(c, s, front);
      StepKeepsThreads(c, After(c, s, front), steps[|steps| - 1]);
      StepKeepsHistory(c, After(c, s, front), steps[|steps| - 1]);
    }
  }

  lemma Extend(c: Config, s: Sys, steps: seq<Step>, step: Step)
    requires Legal(c, s, steps) && Enabled(c, After(c, s, steps), step)
    ensures Legal(c, s, steps + [step])
    ensures After(c, s, steps + [step]) == Apply(c, After(c, s, steps), step)
  {
    assert (steps + [step])[..|steps|] == steps;
  }

  lemma {:induction false} Concatenate(c: Config, s: Sys, a: seq<Step>, b: seq<Step>)
    requires Legal(c, s, a) && Legal(c, After(c, s, a), b)
    ensures Legal(c, s, a + b)
    ensures After(c, s, a + b) == After(c, After(c, s, a), b)
  {
    if b == [] {
      assert a + b == a;
    } else {
      var front, last := b[..|b| - 1], b[|b| - 1];
      Concatenate(c, s, a, front);
      Extend(c, s, a + front, last);
      assert a + b == (a + front) + [last];
    }
  }
}
