# A verified model of faas-provider

Two components of the provider are modelled and proved: the adaptive controller that moves a live cache between
eviction policies (`pkg/adaptive`), and the flow handler that evaluates a graph of functions with a shared result cache
(`proxy/proxy.go`, `types/flows.go`). `dafny verify dfyconfig.toml` checks everything.

**The controller.** An orchestrator wakes up on a ticker, measures the active policy, asks a sliding-window pattern
detector and a least-squares trend analyser whether something changed, compares the other policies with a cost-benefit
analysis and switches the server. It reads its state under a lock, releases the lock, decides, commands the server and
takes the lock again to write; accesses are recorded concurrently.

- `Arith`, `Sums`, `Window`: algebra over reals, sums over maps, bounded logs.
- `Regression`, `Fit`, `Trend`: least squares, R², variance, and the analyser object.
- `Frequency`, `Pattern`: access counts, the skew score, and the detector object.
- `CostBenefit`: switching cost, net benefit, the comparison of candidates, and the analyser object.
- `CacheTypes`, `Server`, `Metrics`: values, the cache server, and the aggregator with its mutable entries.
- `Protocol`: the orchestrator as a state machine. Each step is one lock-protected section or one exchange with the
  server, with a program counter per goroutine; a run is any sequence of enabled steps.
- `Guarantees`: what holds over every run.
- `Decisions`: what makes a switch happen, over every run.
- `Orchestrator`: the object itself. Its methods carry a ghost copy of the protocol state and are proved to perform runs
  of the protocol whose statuses are the readings they were given; spacing, the bound on cycles and the stationary
  workload are stated of the object too.

**The flow handler.** A request for a flow maps its arguments to each child, runs the children through the same handler
(or posts to a third party), and invokes the function on the arguments and the children's outputs. A cached flow looks
its answer up first, under a hash of its name and arguments, and stores it afterwards.

- `Flows`: configuration, the reference evaluation, the graph of calls, and when evaluation ends.
- `FlowMachine`: all requests in flight at once, over a cache that may lose entries, miss and refuse at any time, and
  over the connections of the one HTTP client that calls internal children.
- `FlowConnections`, `FlowGridlock`: how many requests of which depth those connections carry, exactly.
- `FlowTermination`: a bound on the work of handlers over every run.
- `FlowMemo`: how often concurrent requests invoke a cached function, exactly.
- `FlowProxy`: the handler object with its shared argument object, its loops, its cache client and its connections.

The handler's argument object and the decoded request body are the same map, so adding the flow's name for the key also
changes what the function and its children see. The reference evaluation says so (`Flows.Effective`), the handler
reproduces it by aliasing (`FlowProxy.Input.args`), and `Flows.CachingIsVisible` says exactly when it changes an answer.

A handler holds a connection of the shared client from the call of an internal child until it has read the response, and
the client opens at most 100 to the provider itself. Nested flows can therefore wait for one another: 100 requests at
once for a flow that calls a flow that calls a flow, or one request with calls nested 101 deep, can get no further; only
the client's timeout ends them, without a reply. `FlowGridlock.ConnectionsSuffice` and `FlowGridlock.LoneRequest` give
the exact limit.

## Where the code differs from its comments

- A comment puts the reconstruction time at about 0.1 s per MB (pkg/adaptive/cost_benefit.go:62); the switching cost uses
  0.01 (line 64), while `EstimateReconstructionTime` uses 0.1 (line 225). The model follows the switching cost.
- `SelectBestPolicy` is described as returning "" when there are no metrics; it also does so when every ratio is above one.
- Weights "should sum to 1.0"; the setter accepts a sum within 0.01 of one and weights of either sign, so a policy with a
  worse miss ratio can be recommended (`CostBenefit.AcceptedWeightsMayWorsen`; exactly when: `CostBenefit.RecommendationsImprove`).
- With `minSamples` lowered to one, a prediction from a single snapshot is zero, not the snapshot
  (`Trend.SingleSnapshotMispredicted`; exactly when: `Trend.ConstantPrediction`).
- Concurrent equal requests are not memoised, even by a perfect cache (`FlowMemo.OverlapRepeats`); exactly when:
  `FlowMemo.MemoisedExactly`, and what callers can do about it: `FlowMemo.SerialMemoised`.

## Model

| member | source | states |
|---|---|---|
| `Regression.DenominatorClosed` | pkg/adaptive/trend.go:114-132 | The regression's denominator n·Σx² − (Σx)² equals n²(n²−1)/12. |
| `Regression.DenominatorPositive` | pkg/adaptive/trend.go:132-136 | From two values on the denominator is positive, so the zero-denominator branch is never taken. |
| `Regression.Decomposition` | pkg/adaptive/trend.go:107-145 | Pythagoras: every line's residual sum is the fitted line's plus the squared distance of the two lines. |
| `Regression.LeastSquares` | pkg/adaptive/trend.go:107-145 | The computed slope and intercept minimise the sum of squared residuals over all real lines, and no other line does. |
| `Regression.ExactRecovery` | pkg/adaptive/trend.go:107-145 | Values on a line a·i+b give back exactly slope a and intercept b. |
| `Regression.LinearValues` | pkg/adaptive/trend.go:107-145 | The same spelt out: values a·i+b have slope a and intercept b. |
| `Fit.SpreadSplit` | pkg/adaptive/trend.go:142-189 | SStot = SSres + slope²·n(n²−1)/12 for the fitted line. |
| `Fit.RSquaredMeans` | pkg/adaptive/trend.go:150-189 | For any line: zero for a constant series, otherwise the share of SStot the line explains, or zero if it explains none. |
| `Fit.VarianceMeans` | pkg/adaptive/trend.go:192-215 | Mean and variance times n are the sum and the squared deviations; the variance is zero exactly for constant series. |
| `Fit.NoSpread` | pkg/adaptive/trend.go:176-178 | SStot is zero exactly for constant series, whose fitted line is flat. |
| `Fit.RSquaredOfFit` | pkg/adaptive/trend.go:150-189 | For the fitted line R² is in [0,1] without the clamp, and is 1 exactly when one line passes through all points. |
| `Fit.VarianceBoundsSlope` | pkg/adaptive/trend.go:65-74 | The two degradation signals are tied: 12·variance ≥ slope²(n²−1), with equality exactly on a line. |
| `Fit.UnitBounds` | pkg/adaptive/trend.go:192-215 | Ratios in [0,1] have variance at most 1/4 and slope² ≤ 3/(n²−1). |
| `Trend.TrendAnalyzer.constructor` | pkg/adaptive/trend.go:31-37 | The default thresholds are 0.01, 0.05 and 3, all positive. |
| `Trend.TrendAnalyzer.SetThresholds` | pkg/adaptive/trend.go:246-261 | Each threshold changes only to a positive value, independently of the others, and so stays positive. |
| `Trend.TrendAnalyzer.ExtractMissRatios` | pkg/adaptive/trend.go:92-103 | The loop keeps exactly the ratios of the policy's own snapshots, in order. |
| `Trend.TrendAnalyzer.LinearRegression` | pkg/adaptive/trend.go:107-145 | The four accumulating sums lead to the unique least-squares line and its R²; fewer than two values give zeros. |
| `Trend.TrendAnalyzer.CalculateRSquared` | pkg/adaptive/trend.go:150-189 | The accumulating loops compute one minus residual over total squares about the mean, clamped at zero, zero without spread. |
| `Trend.TrendAnalyzer.CalculateVariance` | pkg/adaptive/trend.go:192-215 | The accumulating loops compute the mean squared deviation from the mean. |
| `Trend.TrendAnalyzer.AnalyzeTrend` | pkg/adaptive/trend.go:40-89 | The score, with its two too-few-samples answers, as specified by `Trend.Score`. |
| `Trend.TrendAnalyzer.PredictNextValue` | pkg/adaptive/trend.go:218-243 | The fitted line's value at n clamped to [0,1], or the insufficient-data error. |
| `Trend.ConfidenceMeans` | pkg/adaptive/trend.go:141-144 | The confidence is the share of the squared deviations that the least-squares line explains; zero for constant series. |
| `Trend.ScoreMeans` | pkg/adaptive/trend.go:64-88 | With enough samples each field of the score is what its name says: least-squares slope and intercept, mean squared deviation, explained share, sample size, and the alarm. |
| `Trend.TooFewMeans` | pkg/adaptive/trend.go:44-62 | With too few samples all figures are zero, nothing is alarmed or predicted, and the right count is reported. |
| `Trend.ScoreNeedsSamples` | pkg/adaptive/trend.go:44-62 | Degradation is only reported on at least minSamples snapshots of the policy. |
| `Trend.ForeignSnapshotsIgnored` | pkg/adaptive/trend.go:40-62 | Removing other policies' snapshots changes no field of the score but the sample size of a too short history, says exactly when, and never changes a prediction. |
| `Trend.LargeVarianceThresholdIsDead` | pkg/adaptive/trend.go:65-74 | With a variance threshold of 1/4 or more only the slope can raise the alarm. |
| `Trend.QuarterIsTight` | pkg/adaptive/trend.go:65-74 | Below 1/4 the variance alone can raise it: the bound is the best one. |
| `Trend.DriftDetection` | pkg/adaptive/trend.go:65-74 | A steady drift a over n snapshots is reported exactly when a, or a²(n²−1)/12, is above its threshold. |
| `Trend.PredictionOnLine` | pkg/adaptive/trend.go:218-243 | Snapshots a·i+b predict a·n+b, or the nearest end of [0,1]. |
| `Trend.ConstantPrediction` | pkg/adaptive/trend.go:107-112 | A constant series is predicted to stay exactly when it has two samples or is zero. |
| `Trend.SingleSnapshotMispredicted` | pkg/adaptive/trend.go:218-243 | With minSamples 1, one snapshot of 0.5 predicts 0. |
| `Window.PushKeepsLast` | pkg/adaptive/pattern.go:68-74 | Appending and dropping one oldest element keeps a log equal to the last elements recorded. |
| `Window.RunIsLast` | pkg/adaptive/pattern.go:57-75 | After every run of records and resets the log is exactly the last min(window, count since reset) accesses, in order. |
| `Pattern.PatternDetector.constructor` | pkg/adaptive/pattern.go:45-54 | An empty log; a window size that is not positive becomes 1000. |
| `Pattern.PatternDetector.RecordAccess` | pkg/adaptive/pattern.go:57-75 | The log stays the last windowSize accesses since the last reset. |
| `Pattern.PatternDetector.Clear` | pkg/adaptive/pattern.go:245-250 | The log is empty and counting starts again. |
| `Pattern.PatternDetector.DetectShift` | pkg/adaptive/pattern.go:78-124 | Older half against newer half of a full window, as specified by `Pattern.ShiftOf`, whose detection `Pattern.DetectsExactly` characterises; nothing is detected before windowSize accesses since the last reset. |
| `Pattern.PatternDetector.ExtractPattern` | pkg/adaptive/pattern.go:127-163 | The counting loop yields the scores, key count and hit rate of the accesses. |
| `Pattern.PatternDetector.CalculateRecencyScore` | pkg/adaptive/pattern.go:167-192 | Hit rate over the last quarter; zero below four accesses. |
| `Pattern.PatternDetector.CalculateFrequencyScore` | pkg/adaptive/pattern.go:196-222 | Half the coefficient of variation, capped at one, for every iteration order of the counts. |
| `Pattern.PatternDetector.SumOfDeviations` | pkg/adaptive/pattern.go:205-209 | The map loop adds up the squared deviations, whatever order it takes. |
| `Pattern.ScoresInUnit` | pkg/adaptive/pattern.go:167-222 | Recency and frequency score of every access sequence are in [0,1]. |
| `Pattern.ShiftNeedsWindow` | pkg/adaptive/pattern.go:83-87 | No shift is reported on a log shorter than the window. |
| `Pattern.HitsCounted` | pkg/adaptive/pattern.go:180-186 | The counting loop counts the positions of hits. |
| `Pattern.RecencyMeans` | pkg/adaptive/pattern.go:167-192 | The recency score times the size of the last quarter is the number of positions of hits in it; zero below four accesses. |
| `Pattern.SkewMeans` | pkg/adaptive/pattern.go:196-222 | The frequency score is the one number whose square the counts determine, for every square root. |
| `Pattern.DetectsExactly` | pkg/adaptive/pattern.go:83-106 | A shift is detected exactly when the window is full and the late hit rates of its halves, as numbers of positions, or their skews are more than 0.1 apart. |
| `Pattern.LateHitsDetect` | pkg/adaptive/pattern.go:99-106 | Late hit rates more than 0.1 apart are detected, whatever the keys. |
| `Pattern.PatternMeans` | pkg/adaptive/pattern.go:136-162 | The other figures of a pattern: number of distinct keys, their share, and the share of hits. |
| `Pattern.NoShiftBeforeFullWindow` | pkg/adaptive/pattern.go:57-93 | After any run of accesses and resets, no shift until a full window was recorded since the last reset. |
| `Pattern.RepeatedWorkloadIsStable` | pkg/adaptive/pattern.go:78-124 | A window whose newer half repeats the older one, reordered and with keys renamed one to one and as many late hits, is no shift. |
| `Frequency.FrequenciesCount` | pkg/adaptive/pattern.go:136-144 | The loop's counts are positive and add up to the number of accesses. |
| `Frequency.DeviationIdentity` | pkg/adaptive/pattern.go:201-210 | k·Σ(c−mean)² = k·Σc² − N² for k keys and N accesses. |
| `Frequency.SkewValue` | pkg/adaptive/pattern.go:196-222 | The score is in [0,1] and (2·score)²·N² = min(k·Σc² − N², 4N²); it reaches 1 exactly when cv ≥ 2. |
| `Frequency.ZeroSkew` | pkg/adaptive/pattern.go:196-222 | The score is zero exactly when all keys are equally frequent. |
| `Frequency.FewKeysBelowCap` | pkg/adaptive/pattern.go:213-219 | With at most five distinct keys the score is strictly below one. |
| `Frequency.SixKeysReachCap` | pkg/adaptive/pattern.go:213-219 | Some accesses to six keys have score exactly one, so five is the best bound. |
| `Frequency.SkewInvariant` | pkg/adaptive/pattern.go:136-146 | Reordering accesses and renaming keys one to one leaves the score unchanged. |
| `CostBenefit.CostBenefitAnalyzer.constructor` | pkg/adaptive/cost_benefit.go:44-54 | Threshold 0.05 and weights 0.4, 0.2, 0.4. |
| `CostBenefit.CostBenefitAnalyzer.SetThreshold` | pkg/adaptive/cost_benefit.go:178-185 | Values outside [0,1] are ignored, so the threshold stays in [0,1]. |
| `CostBenefit.CostBenefitAnalyzer.SetWeights` | pkg/adaptive/cost_benefit.go:196-211 | Accepts exactly weights whose sum is within 0.01 of one; a rejected call changes nothing. |
| `CostBenefit.CostBenefitAnalyzer.CompareMultipleCandidates` | pkg/adaptive/cost_benefit.go:251-288 | For every iteration order: an analysis with the maximal net benefit of all other policies above −1, or nil when there is none. |
| `CostBenefit.ChoiceIsOrderIndependent` | pkg/adaptive/cost_benefit.go:258-278 | Two iteration orders agree on nil, net benefit and recommendation. |
| `CostBenefit.ChoiceIsComplete` | pkg/adaptive/cost_benefit.go:251-288 | A recommendation is returned exactly when some other policy has net benefit above the threshold, for any weights. |
| `CostBenefit.GainAbove` | pkg/adaptive/cost_benefit.go:93-106 | A gain above g is exactly a candidate ratio below (1−g) times a positive current one. |
| `CostBenefit.RecommendationIsBest` | pkg/adaptive/cost_benefit.go:251-288 | With cost + threshold ≥ 0 the recommended policy improves the ratio and no candidate has a lower one. |
| `CostBenefit.RecommendationsImprove` | pkg/adaptive/cost_benefit.go:133-133 | Recommendations improve the ratio for all measurements if and only if cost + threshold ≥ 0. |
| `CostBenefit.AcceptedWeightsMayWorsen` | pkg/adaptive/cost_benefit.go:196-211 | Weights the setter accepts recommend going from ratio 0.1 to 0.9. |
| `CostBenefit.CostsInUnit` | pkg/adaptive/cost_benefit.go:63-73 | Time and memory cost are in [0,1] for every cache size. |
| `CostBenefit.DefaultCostBounds` | pkg/adaptive/cost_benefit.go:57-90 | Default weights keep the total cost between 0.008 and 0.608. |
| `CostBenefit.DefaultChoiceExists` | pkg/adaptive/cost_benefit.go:251-288 | With default weights the result is non-nil exactly when there is a candidate other than the current policy. |
| `CostBenefit.CostMonotone` | pkg/adaptive/cost_benefit.go:57-90 | With non-negative weights the cost is non-negative and grows with the cache size. |
| `CostBenefit.SwitchingCostMeans` | pkg/adaptive/cost_benefit.go:61-89 | A cache of 1000 MiB costs the full time and one of ten times the memory limit the full memory, smaller ones in proportion; each weight applies to its own cost. |
| `CostBenefit.GainMeans` | pkg/adaptive/cost_benefit.go:93-106 | The gain times the current ratio is the improvement, and zero when there is none. |
| `CostBenefit.RecommendedExactly` | pkg/adaptive/cost_benefit.go:114-151 | A switch is recommended exactly when the candidate is below the current ratio by more than cost and threshold together, as a share of it. |
| `Server.PaperClient.SetPolicy` | pkg/adaptive/orchestrator.go:272-276 | An accepted command changes the active policy; a refused one leaves the server as it was. |
| `Server.PaperClient.Status` | pkg/adaptive/metrics.go:210-214 | A status, when there is one, reports the active policy. |
| `Metrics.ReplayEntries` | pkg/adaptive/metrics.go:185-205 | Every entry shows its policy's last measurement and counts all of them; unmeasured policies have none. |
| `Metrics.SamplesConserved` | pkg/adaptive/metrics.go:185-205 | Over any sequence of measurements the sample counts of all policies add up to their number. |
| `Metrics.PolicyMetrics.Update` | pkg/adaptive/metrics.go:191-195 | The in-place update of one entry. |
| `Metrics.LengthTest` | pkg/adaptive/metrics.go:374-379 | If only configured policies were measured and none is configured twice, equal lengths mean that all were measured. |
| `Metrics.ReplayProfiled` | pkg/adaptive/metrics.go:107-135 | After profiling the first k policies: who has an entry, how often each was sampled, and which reply its ratio shows, in terms of the replies alone. |
| `Metrics.ProfiledUnderActive` | pkg/adaptive/metrics.go:111-131 | Every profiling measurement is stored under the policy the server then ran. |
| `Metrics.MetricsAggregator.constructor` | pkg/adaptive/metrics.go:58-65 | Nothing measured, nothing collected. |
| `Metrics.MetricsAggregator.Initialize` | pkg/adaptive/metrics.go:69-87 | The configured policies are the server's list; without a status nothing changes; before any measurement only configured policies are measured. |
| `Metrics.MetricsAggregator.StorePolicyMetrics` | pkg/adaptive/metrics.go:185-205 | Updating in place or adding an entry both append one measurement to the replayed sequence. |
| `Metrics.MetricsAggregator.UpdateExisting` | pkg/adaptive/metrics.go:191-195 | Only the policy's own object changes. |
| `Metrics.MetricsAggregator.AddNew` | pkg/adaptive/metrics.go:196-204 | A new policy gets an object of its own. |
| `Metrics.MetricsAggregator.Record` | pkg/adaptive/metrics.go:216-251 | The measurement and the snapshot of one status, field by field; measuring a configured policy keeps only configured policies measured. |
| `Metrics.MetricsAggregator.CopyMetrics` | pkg/adaptive/metrics.go:265-274 | The copying loop makes a new object of equal value for every policy, in any order. |
| `Metrics.MetricsAggregator.FastProfile` | pkg/adaptive/metrics.go:92-141 | A policy has an entry exactly when it had one or at some position its command was accepted and a status given; the entry shows the last such status and counts them; each measurement is stored under the policy then active; the server is left on the last accepted one, and only configured policies stay measured. |
| `Metrics.MetricsAggregator.CollectCurrentMetrics` | pkg/adaptive/metrics.go:209-254 | One measurement and one snapshot more; the view's objects are new and shared with nobody, so no later collection changes it, and its current policy and ratio are those of its last history entry. While the server reports configured policies and none is configured twice, its completeness flag says whether every configured policy was measured. |
| `Metrics.MetricsAggregator.AppendSnapshot` | pkg/adaptive/metrics.go:246-251 | History is the last min(10, collections) snapshots. |
| `Metrics.MetricsAggregator.BuildAggregatedMetrics` | pkg/adaptive/metrics.go:258-288 | A deep copy with equal values and fresh objects, and the completeness flag with its meaning. |
| `Metrics.MetricsAggregator.SelectBestPolicy` | pkg/adaptive/metrics.go:394-413 | A measured policy of lowest ratio, or "" exactly when no ratio is at most one, for every iteration order. |
| `Metrics.MetricsAggregator.IsDataComplete` | pkg/adaptive/metrics.go:374-379 | When only configured policies were measured and none is configured twice, the answer is whether every configured policy was measured. |
| `Metrics.CompletenessTest` | pkg/adaptive/metrics.go:374-379 | The length comparison decides completeness for all measured subsets if and only if no policy is configured twice. |
| `Protocol.StepKeepsThreads` | pkg/adaptive/orchestrator.go:116-288 | Every step of every goroutine keeps: at most one loop, isRunning exact, local reads still true, server and state in agreement. |
| `Protocol.StepKeepsHistory` | pkg/adaptive/orchestrator.go:265-288 | Every step keeps the history of switches spaced, chained and justified, and the entries of inactive policies frozen. |
| `Protocol.RunsKeepInv` | pkg/adaptive/orchestrator.go:116-293 | The invariant holds after every interleaving of any number of steps. |
| `Protocol.Concatenate` | pkg/adaptive/orchestrator.go:116-146 | Runs of the loop's iterations compose to one run. |
| `Guarantees.ConcurrentSafety` | pkg/adaptive/orchestrator.go:116-285 | In every interleaving at most one loop is active and isRunning says whether; what was read before the lock was released is still current; server and currentPolicy agree except between command and state update. |
| `Guarantees.SwitchSpacing` | pkg/adaptive/orchestrator.go:165-170 | k switches since Initialize, or any k consecutive intervals, take at least k times the stability period, with failed switches in between. |
| `Guarantees.SwitchCauses` | pkg/adaptive/orchestrator.go:196-201 | Every switch changes the policy; before windowSize accesses since the last one it comes from the trend over at least minSamples snapshots. |
| `Guarantees.EachSwitchGains` | pkg/adaptive/cost_benefit.go:113-133 | Every switch enters at less than (1−margin) times the ratio it leaves, the margin being the threshold plus the cost that no cache size lowers. |
| `Guarantees.CostAtLeast` | pkg/adaptive/cost_benefit.go:75-82 | With non-negative weights every switching cost is at least the weighted degradation cost. |
| `Guarantees.Hysteresis` | pkg/adaptive/orchestrator.go:154-288 | A→B then B→A needs B's live ratio to exceed its recorded ratio at the first switch by a factor above 1/(1−margin)², which is more than 1/(1−θ)². |
| `Guarantees.NoThrashing` | pkg/adaptive/orchestrator.go:154-288 | The same for cycles of any length: the ratios at which the intermediate policies were left outgrow those they were entered at by more than 1/(1−margin)^length. |
| `Guarantees.StationaryWorkload` | pkg/adaptive/orchestrator.go:154-288 | If each policy always reports one ratio, a run from any policy switches at most once, to a measured policy of lowest ratio; from such a policy it never switches. |
| `Guarantees.SettledByProfiling` | pkg/adaptive/metrics.go:107-135 | Profiling a stationary server records exactly the fixed ratios. |
| `Guarantees.NoSwitchAfterInitialize` | pkg/adaptive/orchestrator.go:86-104 | On a stationary workload no run after Initialize ever switches. |
| `Guarantees.SteadyStays` | pkg/adaptive/orchestrator.go:154-288 | While the server keeps reporting the recorded ratio of a current policy that no measured policy is below, that policy stays in force. |
| `Guarantees.MeasuredFixed` | pkg/adaptive/metrics.go:219-233 | The loop measures no policy that was not measured before, so the completeness of the data never changes after Initialize. |
| `Guarantees.RunsUntilStop` | pkg/adaptive/orchestrator.go:133-145 | A started loop is active until Stop was called. |
| `Decisions.ChoiceIsDue` | pkg/adaptive/orchestrator.go:228-262 | In every reachable state the choice leads to a switch exactly when some measured policy promises more than the threshold, and then to one that promises most. |
| `Decisions.EvaluationIsExact` | pkg/adaptive/orchestrator.go:154-288 | In every interleaving each cause is followed up and nothing else: elapsed periods by questions, statuses by measurement and diagnosis, signals by choices, promising candidates by commands, accepted commands by switches. |
| `Decisions.ShiftsNeedAccesses` | pkg/adaptive/orchestrator.go:284-285 | Between two consecutive switches, the second caused by a shift, a run holds at least windowSize accesses. |
| `Orchestrator.ProfiledInUnit` | pkg/adaptive/metrics.go:107-135 | Profiling adds only ratios the server reported. |
| `Orchestrator.RunIsUndisturbed` | pkg/adaptive/orchestrator.go:133-137 | A loop started on such events makes no switch. |
| `Orchestrator.OutcomeSwitches` | pkg/adaptive/orchestrator.go:154-288 | The exact outcome of a tick in terms of what is visible before and after it. |
| `Orchestrator.ChoiceIsBest` | pkg/adaptive/orchestrator.go:240-262 | The comparison recommends exactly when a measured policy promises more than the threshold, and its candidate promises most. |
| `Orchestrator.InitializedUndisturbed` | pkg/adaptive/orchestrator.go:86-104 | Profiling a server with a fixed ratio for each policy leaves such a state. |
| `Orchestrator.IntelligentOrchestrator.SwitchesSpaced` | pkg/adaptive/orchestrator.go:165-170 | At any time the switches of this object took at least as many stability periods. |
| `Orchestrator.IntelligentOrchestrator.ReturnsPay` | pkg/adaptive/orchestrator.go:154-288 | At any time the switches of this object satisfy the bound on cycles. |
| `Orchestrator.IntelligentOrchestrator.constructor` | pkg/adaptive/orchestrator.go:52-68 | Components in their initial state: window 1000, the default weights, threshold and trend thresholds, nothing measured, no loop. |
| `Orchestrator.IntelligentOrchestrator.SelectInitialPolicy` | pkg/adaptive/orchestrator.go:77-95 | Discovery, profiling and choice, with the reason of each failure. |
| `Orchestrator.IntelligentOrchestrator.Initialize` | pkg/adaptive/orchestrator.go:71-113 | Success puts a best measured policy in force on the server and in the state, starts the cooldown, sets the threshold, keeps the weights and reaches an initial protocol state with only configured policies measured; failure leaves policy and switch time. |
| `Orchestrator.IntelligentOrchestrator.RecordAccess` | pkg/adaptive/orchestrator.go:291-293 | One access step of the protocol. |
| `Orchestrator.IntelligentOrchestrator.EvaluationLoop` | pkg/adaptive/orchestrator.go:154-215 | One tick switches if and only if the stability period is over, the server answers, a shift or degradation shows, some measured policy promises more than the threshold, and the command is accepted; then a most promising one is active and current, the cooldown restarts and the window is empty; otherwise policy, server and window stay. The steps are those of the protocol, so every guarantee about runs keeps holding. |
| `Orchestrator.IntelligentOrchestrator.CheckStability` | pkg/adaptive/orchestrator.go:155-170 | State is read once; the evaluation goes on exactly when the stability period has passed; nothing changes. |
| `Orchestrator.IntelligentOrchestrator.Measure` | pkg/adaptive/orchestrator.go:173-183 | No reading ends the evaluation and changes nothing; a reading is stored as measurement and snapshot of the running policy and yields the view that is decided on. |
| `Orchestrator.IntelligentOrchestrator.Diagnose` | pkg/adaptive/orchestrator.go:189-201 | Candidates are evaluated exactly when a shift or a degrading trend was found. |
| `Orchestrator.IntelligentOrchestrator.BuildCandidates` | pkg/adaptive/orchestrator.go:229-232 | Every measured policy with its ratio, for every iteration order. |
| `Orchestrator.IntelligentOrchestrator.Recommend` | pkg/adaptive/orchestrator.go:222-259 | The comparison on the latest snapshot; nothing without snapshot or measured policies. |
| `Orchestrator.IntelligentOrchestrator.Compare` | pkg/adaptive/orchestrator.go:218-259 | A switch follows exactly when some measured policy other than the current one promises more than the threshold, and it goes to one that promises most. |
| `Orchestrator.IntelligentOrchestrator.EvaluateCandidates` | pkg/adaptive/orchestrator.go:218-263 | The switch is made exactly when a candidate promises enough and the server accepts; otherwise nothing changes. |
| `Orchestrator.IntelligentOrchestrator.PerformSwitch` | pkg/adaptive/orchestrator.go:266-288 | An accepted command puts the policy in force on server and state, restarts the cooldown and empties the window; a refused one changes nothing. |
| `Orchestrator.IntelligentOrchestrator.CommandServer` | pkg/adaptive/orchestrator.go:272-276 | The command step, accepted or refused. |
| `Orchestrator.IntelligentOrchestrator.UpdateState` | pkg/adaptive/orchestrator.go:278-282 | Policy and switch time are set and the switch recorded; nothing else changes. |
| `Orchestrator.IntelligentOrchestrator.ResetDetector` | pkg/adaptive/orchestrator.go:284-285 | The window and the count of accesses are empty; nothing else changes. |
| `Orchestrator.IntelligentOrchestrator.Start` | pkg/adaptive/orchestrator.go:116-146 | Refused exactly when a loop is running, and then nothing changes; otherwise a run of the protocol that waits or has stopped, whose status replies all come from the readings of the events. On readings that keep showing the recorded ratio of a lowest current policy, that policy stays. |
| `Orchestrator.IntelligentOrchestrator.Claim` | pkg/adaptive/orchestrator.go:117-124 | The check of isRunning under the lock. |
| `Orchestrator.IntelligentOrchestrator.Leave` | pkg/adaptive/orchestrator.go:138-143 | The stop signal ends the loop and clears isRunning. |
| `Orchestrator.IntelligentOrchestrator.Stop` | pkg/adaptive/orchestrator.go:149-151 | The stop step of the protocol; a second call panics and changes nothing. |
| `Flows.AcyclicChildren` | proxy/proxy.go:252-267 | A flow leads to no cycle exactly when none of the flows it calls does. |
| `Flows.CallDescends` | proxy/proxy.go:252-267 | A call to a flow outside every cycle leaves strictly fewer flows reachable. |
| `Flows.AnswerRight` | proxy/proxy.go:251-322 | Right outputs of all children, gathered in any order, make the right answer. |
| `Flows.MappedDelivers` | proxy/proxy.go:256-260 | A child's request has exactly the fields of its map, each with the value of the parent's field it names, or null. |
| `Flows.MappedAgree` | proxy/proxy.go:256-260 | Only the parent's fields that the map names matter. |
| `Flows.MappedRename` | proxy/proxy.go:256-260 | Renaming the parent's fields in request and map alike changes nothing for the child. |
| `Flows.OutputIsRight` | proxy/proxy.go:262-309 | A child's output is right exactly when it is what its target, a third party or a flow, answers to that request. |
| `Flows.EvalMeans` | proxy/proxy.go:186-322 | What a flow answers in terms of its configuration alone: its own function, on the arguments, with the flow's name added under the literal field for caching flows, and on what each child's target answers; unknown names are reported first. |
| `Flows.KeyDetermines` | proxy/proxy.go:219-230 | Equal keys mean the same flow, the same effective arguments and the same reference result. |
| `Flows.KeyStable` | proxy/proxy.go:325-338 | The key recomputed for storing is the key that was looked up. |
| `Flows.BoundedRight` | proxy/proxy.go:252-310 | Whatever depth-limited plain recursion returns is the reference result of a flow without cycles. |
| `Flows.BoundedEnough` | proxy/proxy.go:252-310 | Without cycles the recursion is no deeper than the number of reachable flows. |
| `Flows.BoundedExactly` | proxy/proxy.go:252-310 | Recursion of a given depth returns exactly for flows whose internal calls do not nest that deep. |
| `Flows.CyclesNest` | proxy/proxy.go:252-267 | A flow that leads to a cycle nests internal calls without end. |
| `Flows.AcyclicNests` | proxy/proxy.go:252-267 | Any other flow nests at most as many as it reaches flows. |
| `Flows.TerminatesExactly` | proxy/proxy.go:252-310 | Plain recursion ends exactly for flows that lead to no cycle, third-party children being leaves, and then gives the reference result; one that holds a connection for each call under way ends exactly when calls nest no deeper than there are connections. |
| `Flows.CachingIsVisible` | proxy/proxy.go:213-220 | Enabling the cache leaves an answer as it is if no function of the evaluation is handed a field it was not sent; and only then, when functions show their input. |
| `Flows.ObserverSeesCaching` | proxy/proxy.go:213-220 | A childless cached flow whose function only asks for the added field answers differently with and without the cache. |
| `FlowMachine.StoreKeepsCache` | proxy/proxy.go:325-346 | Storing a right answer keeps every entry the reference result for its key. |
| `FlowMachine.StepKeepsInv` | proxy/proxy.go:186-349 | Every step of every handler, and every eviction, keeps cache, outputs and answers right. |
| `FlowMachine.RunsKeepInv` | proxy/proxy.go:186-349 | The invariant holds after every interleaving. |
| `FlowMachine.CacheTransparency` | proxy/proxy.go:186-349 | Every reply of every interleaving, with any losses and failures of the cache, is the reference result; flows that lead to a cycle are never answered. |
| `FlowMachine.HandlerOf` | proxy/proxy.go:186-216 | Each request of a run has a handler that keeps its name and arguments. |
| `FlowMachine.RepliesAreRight` | proxy/proxy.go:186-349 | The reply to each request of a run, as it arrived, is its reference result. |
| `FlowConnections.StepKeepsTree` | proxy/proxy.go:262-307 | Every step keeps the handlers a tree of calls: of those at one distance from one request at most one has not replied. |
| `FlowConnections.StuckHandler` | proxy/proxy.go:285-288 | In a stuck state every handler has an internal call to make or to wait for. |
| `FlowConnections.StuckBusy` | proxy/proxy.go:49-60 | In a stuck state at most h−1 connections are held for each open request of depth h. |
| `FlowConnections.NeverStuck` | proxy/proxy.go:49-60 | With at most N open requests whose calls nest at most h deep, N·(h−1) below the number of connections, some handler can always go on. |
| `FlowGridlock.Gridlock` | proxy/proxy.go:49-60 | Otherwise N requests can leave every handler waiting for another. |
| `FlowGridlock.ConnectionsSuffice` | proxy/proxy.go:49-60 | N requests for a flow of depth h never get stuck if and only if N·(h−1) is below the number of connections. |
| `FlowGridlock.LoneRequest` | proxy/proxy.go:49-60 | A request on its own never gets stuck if and only if its calls nest no deeper than there are connections. |
| `FlowMemo.InvocationsCount` | proxy/proxy.go:322-347 | The invocations under a key are as many as the handlers that made them. |
| `FlowMemo.EntriesAreInvoked` | proxy/proxy.go:325-343 | Every new entry is under the key of a caching flow whose function was invoked for it. |
| `FlowMemo.MemoisedExactly` | proxy/proxy.go:219-249 | Over a cache that keeps everything a key is invoked at most once if and only if no two handlers that invoke it are ever both between look and store. |
| `FlowMemo.SerialMemoised` | proxy/proxy.go:219-249 | If no request or child with a key is started while another with it is unfinished, the key is invoked at most once, whatever other requests do. |
| `FlowMemo.OverlapRepeats` | proxy/proxy.go:219-249 | Otherwise one more request can repeat the invocation, from any state in which the key of a childless flow is not cached and a request with it is unfinished. |
| `FlowTermination.OwnStepUsesWork` | proxy/proxy.go:252-349 | Every step of a handler uses up work that a request brought. |
| `FlowTermination.RequestsAreAnswered` | proxy/proxy.go:252-349 | In every interleaving handlers take at most the steps their requests demand, and while one is unfinished some handler can go on, provided that the open requests are few and shallow enough for the connections. |
| `FlowProxy.CacheClient.Get` | types/cache.go:13-13 | A found value is the entry's; only an unreliable cache loses or misses entries. |
| `FlowProxy.CacheClient.SetEx` | types/cache.go:14-14 | The entry is stored or the cache is as before, minus losses; a reliable cache stores it. |
| `FlowProxy.MapArgs` | proxy/proxy.go:257-260 | The loop gives each child field the value of the parent's field it is mapped to, or null, and no other field. |
| `FlowProxy.MemoisedTransitive` | proxy/proxy.go:322-347 | Memoised stretches compose: no invocation is repeated across them. |
| `FlowProxy.MemoisedCount` | proxy/proxy.go:322-347 | Memoised invocations are as many as the distinct keys they add. |
| `FlowProxy.ParentKeyApart` | proxy/proxy.go:252-347 | What nested children store is never under a key of the flow being computed. |
| `FlowProxy.FlowHandler.Handle` | proxy/proxy.go:186-349 | The handler always ends: with the reference result, or without a reply when calls nest deeper than there are free connections. It keeps the cache right, with any losses and failures; with a reliable cache it invokes each missing key once, stores it, and a cached request invokes nothing. |
| `FlowProxy.FlowHandler.LookUp` | proxy/proxy.go:219-249 | A hit is the reference result; a reliable cache hits exactly when the key is there. |
| `FlowProxy.FlowHandler.Compute` | proxy/proxy.go:251-348 | After a miss: children, function and new entry give the reference result, or a child got no reply; the flow's key was not filled by its children. |
| `FlowProxy.FlowHandler.RunChild` | proxy/proxy.go:256-309 | The output saved under the alias is what the child's target answers to exactly the request the child is due; other outputs stay; an internal child takes a free connection and gives it back. |
| `FlowProxy.FlowHandler.RunChildren` | proxy/proxy.go:252-310 | For every iteration order all children are run and their outputs are right, unless one gets no reply. |
| `FlowProxy.FlowHandler.ProxyRequest` | proxy/proxy.go:312-322 | The function is called on the shared arguments and the children's outputs, once, and the call is logged. |
| `FlowProxy.FlowHandler.Remember` | proxy/proxy.go:325-347 | The response is stored under the recomputed key, which is the one looked up. |
| `FlowProxy.FlowHandler.Serve` | proxy/proxy.go:186-349 | For any sequence of requests every reply is the reference result, and every request that nests no deeper than there are connections has one; with a reliable cache the upstream invocations of cached flows are distinct and as many as the keys added. |

## Left out

- Floating point: `float64` is `real`; rounding, NaN and infinities are not modelled.
- `math.Sqrt` is a parameter; results about the skew score hold for every function with `s >= 0` and `s * s == v` on non-negative `v`.
- CostBenefit.CostBenefitAnalyzer.constructor: `maxMemory` is positive; with zero the source divides by zero and yields an infinite cost, or NaN for an empty cache, which reals do not have.
- Pattern.PatternDetector.CalculateFrequencyScore: the number of accesses is positive, as its only caller makes sure; with zero the source divides by a zero mean and yields an infinite value or NaN.
- Statuses used by the orchestrator report the active policy and a miss ratio in [0,1]. A server in its own automatic mode, or one that another client switches, is not modelled.
- `uint64` counters and sizes are unbounded naturals; the controller does no arithmetic on them that could wrap.
- Orchestrator.IntelligentOrchestrator.Start: processes a finite list of events; the endless select loop is the limit of such lists. No other method runs in the middle of an evaluation; those interleavings are in `Protocol`.
- The RWMutexes of detector, analysers and aggregator: each of their methods is one atomic step. `StartMonitoring`, which collects from a second goroutine, is never started by the handler and is not modelled.
- `SimplifiedFastProfile`: not used by Initialize.
- Clock: time readings are inputs that do not go back; the two-second waits of profiling are part of them.
- Getters, logging, `PrintSummary`, `GetStatus`, `EstimateReconstructionTime`, `EstimateMemoryOverhead`, `buildOrchestratorConfig`: single expressions or output.
- Flow error paths: a body that is not a JSON object, a child that cannot be reached, a proxied call that fails, a third-party flow without URL and an empty function name, where the source stops or dereferences nil, are not part of the model; an unknown flow name is.
- HTTP: status codes (a hit always answers 200), headers, event streams. Bodies only. The client's timeout only ends handlers that wait for a connection; a child that takes longer than the timeout is not modelled, nor are the connections to third parties, which no handler holds while it waits for another.
- `Flow.Args` and `CacheTTL`: the first is read by no handler; expiry is one of the losses the cache may suffer.
- Deployed functions and third parties answer as functions of their input; SHA1 over JSON is an injective hash of the arguments.
- The handler's call of `RecordAccess`: accesses reach the orchestrator as `Access` steps of its environment.
- FlowProxy.FlowHandler.Handle: one request at a time, with losses and failures of the cache at every call; interleaved handlers are the subject of `FlowMachine`.
- Authentication, logs, metrics export, resolving of function addresses, `types/read_config.go`.
