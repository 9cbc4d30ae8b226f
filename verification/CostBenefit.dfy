/** Whether a change of eviction policy pays for itself (pkg/adaptive/cost_benefit.go). */
module CostBenefit {
  import opened Arith
  import opened CacheTypes
  import opened Frequency

  datatype Weights = Weights(time: real, memory: real, degradation: real)

  datatype AnyParams = Params(maxMemory: nat, threshold: real, weights: Weights)

  /** The analyser divides by the memory limit. */
  type Params = p: AnyParams | p.maxMemory > 0 witness Params(1, 0.0, DEFAULT_WEIGHTS)

  const DEFAULT_WEIGHTS: Weights := Weights(0.4, 0.2, 0.4)
  const DEGRADATION_COST: real := 0.02

  datatype SwitchingCost = SwitchingCost(timeCost: real, memoryCost: real, degradationCost: real, totalCost: real)

  datatype Analysis = Analysis(
    currentPolicy: Policy, candidatePolicy: Policy, currentMissRatio: real, candidateMissRatio: real,
    potentialGain: real, switchingCost: SwitchingCost, netBenefit: real, shouldSwitch: bool)

  /** Ten seconds of reconstruction, at 0.01 s per MB, is the full time cost. */
  function TimeCost(cacheSize: nat): real {
    Min(cacheSize as real / 1048576.0 * 0.01 / 10.0, 1.0)
  }

  /** Ten percent of the cache size, relative to the memory limit. */
  function MemoryCost(maxMemory: nat, cacheSize: nat): real
    requires maxMemory > 0
  {
    Min(cacheSize as real * 0.1 / maxMemory as real, 1.0)
  }

  function Weighted(w: Weights, time: real, memory: real, degradation: real): real {
    w.time * time + w.memory * memory + w.degradation * degradation
  }

  function EstimateSwitchingCost(p: Params, cacheSize: nat): SwitchingCost {
    var time, memory := TimeCost(cacheSize), MemoryCost(p.maxMemory, cacheSize);
    SwitchingCost(time, memory, DEGRADATION_COST, Weighted(p.weights, time, memory, DEGRADATION_COST))
  }

  /** Relative improvement of the miss ratio; zero when there is none. */
  function PotentialGain(current: real, candidate: real): real {
    if current == 0.0 then 0.0
    else if candidate >= current then 0.0
    else (current - candidate) / current
  }

  function Analyze(p: Params, currentPolicy: Policy, candidatePolicy: Policy, current: real, candidate: real,
      cacheSize: nat): Analysis {
    var gain, cost := PotentialGain(current, candidate), EstimateSwitchingCost(p, cacheSize);
    var net := gain - cost.totalCost;
    Analysis(currentPolicy, candidatePolicy, current, candidate, gain, cost, net, net > p.threshold)
  }

  /** What a comparison of all candidates with the current policy may return. */
  ghost predicate IsChoice(p: Params, currentPolicy: Policy, current: real, candidates: map<Policy, real>,
      cacheSize: nat, r: Option<Analysis>) {
    match r
    case None =>
      forall q | q in candidates && q != currentPolicy ::
        Analyze(p, currentPolicy, q, current, candidates[q], cacheSize).netBenefit <= -1.0
    case Some(best) =>
      && best.candidatePolicy in candidates && best.candidatePolicy != currentPolicy
      && best == Analyze(p, currentPolicy, best.candidatePolicy, current, candidates[best.candidatePolicy], cacheSize)
      && best.netBenefit > -1.0
      && forall q | q in candidates && q != currentPolicy ::
           Analyze(p, currentPolicy, q, current, candidates[q], cacheSize).netBenefit <= best.netBenefit
  }

  class CostBenefitAnalyzer {
    const maxMemory: nat
    var switchThreshold: real
    var weights: Weights

    ghost predicate Valid()
      reads this
    {
      maxMemory > 0 && 0.0 <= switchThreshold <= 1.0
    }

    function Config(): Params
      reads this
      requires maxMemory > 0
    {
      Params(maxMemory, switchThreshold, weights)
    }

    constructor (maxMemory: nat)
      requires maxMemory > 0
      ensures Valid() && Config() == Params(maxMemory, 0.05, DEFAULT_WEIGHTS)
    {
      this.maxMemory, switchThreshold, weights := maxMemory, 0.05, DEFAULT_WEIGHTS;
    }

    /** Values outside the unit interval are ignored. */
    method SetThreshold(threshold: real)
      requires Valid()
      modifies this
      ensures Valid() && weights == old(weights)
      ensures switchThreshold == if 0.0 <= threshold <= 1.0 then threshold else old(switchThreshold)
    {
      if threshold >= 0.0 && threshold <= 1.0 {
        switchThreshold := threshold;
      }
    }

    /** Weights whose sum is more than 0.01 away from one are rejected. */
    method SetWeights(w: Weights) returns (ok: bool)
      requires Valid()
      modifies this
      ensures Valid() && switchThreshold == old(switchThreshold)
      ensures ok <==> Accepted(w)
      ensures weights == if ok then w else old(weights)
    {
      var sum := w.time + w.memory + w.degradation;
      if sum - 1.0 > 0.01 || 1.0 - sum > 0.01 {
        return false;
      }
      weights := w;
      return true;
    }

    /** Visits the candidates in an arbitrary order. */
    method CompareMultipleCandidates(currentPolicy: Policy, current: real, candidates: map<Policy, real>,
        cacheSize: nat) returns (best: Option<Analysis>)
      requires Valid()
      ensures IsChoice(Config(), currentPolicy, current, candidates, cacheSize, best)
    {
      best := None;
      var bestNetBenefit := -1.0;
      var remaining := candidates.Keys;
      while remaining != {}
        invariant remaining <= candidates.Keys
        invariant bestNetBenefit == if best.Some? then best.value.netBenefit else -1.0
        invariant IsChoice(Config(), currentPolicy, current, map q | q in candidates && q !in remaining ::
            candidates[q], cacheSize, best)
        decreases |remaining|
      {
        var candidate :| candidate in remaining;
        remaining := remaining - {candidate};
        if candidate != currentPolicy {
          var analysis := Analyze(Config(), currentPolicy, candidate, current, candidates[candidate], cacheSize);
          if analysis.netBenefit > bestNetBenefit {
            bestNetBenefit := analysis.netBenefit;
            best := Some(analysis);
          }
        }
      }
      assert (map q | q in candidates && q !in remaining :: candidates[q]) == candidates;
    }
  }

  ghost predicate Accepted(w: Weights) {
    -0.01 <= w.time + w.memory + w.degradation - 1.0 <= 0.01
  }

  ghost predicate NonNegative(w: Weights) {
    w.time >= 0.0 && w.memory >= 0.0 && w.degradation >= 0.0
  }

  // ----- the choice -----

  /** Any two iteration orders agree on whether there is a result, on its net benefit and on the recommendation. */
  lemma ChoiceIsOrderIndependent(p: Params, currentPolicy: Policy, current: real, candidates: map<Policy, real>,
      cacheSize: nat, r: Option<Analysis>, s: Option<Analysis>)
    requires IsChoice(p, currentPolicy, current, candidates, cacheSize, r)
    requires IsChoice(p, currentPolicy, current, candidates, cacheSize, s)
    ensures r.None? <==> s.None?
    ensures r.Some? ==> r.value.netBenefit == s.value.netBenefit && (r.value.shouldSwitch <==> s.value.shouldSwitch)
  {
  }

  /** A switch is recommended exactly when some other policy's net benefit is above the threshold, for any weights. */
  lemma ChoiceIsComplete(p: Params, currentPolicy: Policy, current: real, candidates: map<Policy, real>,
      cacheSize: nat, r: Option<Analysis>)
    requires p.threshold >= -1.0
    requires IsChoice(p, currentPolicy, current, candidates, cacheSize, r)
    ensures r.Some? && r.value.shouldSwitch <==>
            exists q :: q in candidates && q != currentPolicy
                        && Analyze(p, currentPolicy, q, current, candidates[q], cacheSize).netBenefit > p.threshold
  {
    if r.Some? && r.value.shouldSwitch {
      assert Analyze(p, currentPolicy, r.value.candidatePolicy, current, candidates[r.value.candidatePolicy],
          cacheSize).netBenefit > p.threshold;
    }
  }

  /** A gain above g, measured from a positive ratio, is a candidate ratio below (1-g) times the current one. */
  lemma GainAbove(current: real, candidate: real, g: real)
    requires current >= 0.0 && g >= 0.0
    ensures PotentialGain(current, candidate) > g <==> current > 0.0 && candidate < Mul(1.0 - g, current)
  {
    if current > 0.0 {
      var gain := (current - candidate) / current;
      assert gain * current == current - candidate;
      assert Mul(1.0 - g, current) == current - g * current;
      if candidate < current {
        if gain > g {
          Monotone(g, gain, current);
        } else {
          Monotone(gain, g, current);
        }
      } else {
        Monotone(0.0, g, current);
      }
    }
  }

  lemma GainOrder(current: real, x: real, y: real)
    requires current >= 0.0 && PotentialGain(current, x) > 0.0
    ensures x < current
    ensures PotentialGain(current, y) <= PotentialGain(current, x) <==> x <= y
  {
    var gx, gy := (current - x) / current, (current - y) / current;
    assert gx * current == current - x && gy * current == current - y;
    if gy <= gx {
      Monotone(gy, gx, current);
    } else {
      Monotone(gx, gy, current);
    }
  }

  /**
    With cost + threshold >= 0 a recommended candidate has a lower ratio than the current policy and no candidate
    has a lower one.
   */
  lemma RecommendationIsBest(p: Params, currentPolicy: Policy, current: real, candidates: map<Policy, real>,
      cacheSize: nat, r: Option<Analysis>)
    requires current >= 0.0 && EstimateSwitchingCost(p, cacheSize).totalCost + p.threshold >= 0.0
    requires IsChoice(p, currentPolicy, current, candidates, cacheSize, r)
    requires r.Some? && r.value.shouldSwitch
    ensures r.value.candidateMissRatio < current
    ensures forall q | q in candidates && q != currentPolicy :: r.value.candidateMissRatio <= candidates[q]
  {
    GainOrder(current, r.value.candidateMissRatio, r.value.candidateMissRatio);
    forall q | q in candidates && q != currentPolicy
      ensures r.value.candidateMissRatio <= candidates[q]
    {
      var a := Analyze(p, currentPolicy, q, current, candidates[q], cacheSize);
      assert a.netBenefit <= r.value.netBenefit;
      GainOrder(current, r.value.candidateMissRatio, candidates[q]);
    }
  }

  /**
    Recommendations lead to strictly lower miss ratios for all measurements exactly when cost + threshold is not
    negative. The setter checks only the sum of the weights, so it admits weights that break this.
   */
  lemma RecommendationsImprove(p: Params, cacheSize: nat)
    ensures EstimateSwitchingCost(p, cacheSize).totalCost + p.threshold >= 0.0 <==>
            forall a, b, current, candidate | current >= 0.0
                && Analyze(p, a, b, current, candidate, cacheSize).shouldSwitch :: candidate < current
  {
    var cost := EstimateSwitchingCost(p, cacheSize).totalCost;
    if cost + p.threshold >= 0.0 {
      forall a, b, current, candidate | current >= 0.0 && Analyze(p, a, b, current, candidate, cacheSize).shouldSwitch
        ensures candidate < current
      {
      }
    } else {
      assert Analyze(p, "a", "b", 0.5, 0.5, cacheSize).shouldSwitch;
    }
  }

  lemma AcceptedWeightsMayWorsen()
    ensures exists p: Params, cacheSize ::
              Accepted(p.weights) && p.threshold == 0.05 && Analyze(p, "lru", "lfu", 0.1, 0.9, cacheSize).shouldSwitch
  {
    var p := Params(1073741824000, 0.05, Weights(-1.0, 1.0, 1.0));
    var size := 1048576000;
    assert TimeCost(size) == 1.0;
    assert MemoryCost(p.maxMemory, size) <= 0.001;
    assert Weighted(p.weights, TimeCost(size), MemoryCost(p.maxMemory, size), 0.02) == -1.0 * 1.0
        + 1.0 * MemoryCost(p.maxMemory, size) + 1.0 * 0.02;
    assert Analyze(p, "lru", "lfu", 0.1, 0.9, size).shouldSwitch;
  }

  // ----- bounds on the cost -----

  lemma CostsInUnit(maxMemory: nat, cacheSize: nat)
    requires maxMemory > 0
    ensures 0.0 <= TimeCost(cacheSize) <= 1.0
    ensures 0.0 <= MemoryCost(maxMemory, cacheSize) <= 1.0
  {
    QuotientSign(cacheSize as real * 0.1, maxMemory as real);
  }

  /** The default weights keep the cost between 0.008 and 0.608, so some candidate is always returned. */
  lemma DefaultCostBounds(p: Params, cacheSize: nat)
    requires p.weights == DEFAULT_WEIGHTS
    ensures 0.008 <= EstimateSwitchingCost(p, cacheSize).totalCost <= 0.608
  {
    CostsInUnit(p.maxMemory, cacheSize);
  }

  lemma DefaultChoiceExists(p: Params, currentPolicy: Policy, current: real, candidates: map<Policy, real>,
      cacheSize: nat, r: Option<Analysis>)
    requires p.weights == DEFAULT_WEIGHTS && current >= 0.0
    requires IsChoice(p, currentPolicy, current, candidates, cacheSize, r)
    ensures r.Some? <==> exists q :: q in candidates && q != currentPolicy
  {
    if q :| q in candidates && q != currentPolicy {
      var a := Analyze(p, currentPolicy, q, current, candidates[q], cacheSize);
      DefaultCostBounds(p, cacheSize);
      if current > candidates[q] && current > 0.0 {
        QuotientSign(current - candidates[q], current);
      }
      assert a.netBenefit > -1.0;
    }
  }

  /** Non-negative weights make the cost non-negative and monotone in the cache size. */
  lemma CostMonotone(p: Params, small: nat, large: nat)
    requires NonNegative(p.weights) && small <= large
    ensures 0.0 <= EstimateSwitchingCost(p, small).totalCost <= EstimateSwitchingCost(p, large).totalCost
  {
    CostsInUnit(p.maxMemory, small);
    var m := p.maxMemory as real;
    assert (large as real * 0.1 - small as real * 0.1) / m == large as real * 0.1 / m - small as real * 0.1 / m;
    QuotientSign(large as real * 0.1 - small as real * 0.1, m);
    WeightedMonotone(p.weights, TimeCost(small), MemoryCost(p.maxMemory, small), TimeCost(large),
        MemoryCost(p.maxMemory, large));
  }

  lemma WeightedMonotone(w: Weights, t: real, m: real, t': real, m': real)
    requires NonNegative(w) && 0.0 <= t <= t' && 0.0 <= m <= m'
    ensures 0.0 <= Weighted(w, t, m, DEGRADATION_COST) <= Weighted(w, t', m', DEGRADATION_COST)
  {
    Monotone(0.0, t, w.time);
    Monotone(t, t', w.time);
    Monotone(0.0, m, w.memory);
    Monotone(m, m', w.memory);
    Monotone(0.0, DEGRADATION_COST, w.degradation);
  }

  // ----- what the figures mean -----

  /**
    A cache of 1000 MiB costs the full time, one of ten times the memory limit the full memory; smaller ones in
    proportion.
   */
  lemma SwitchingCostMeans(p: Params, cacheSize: nat)
    ensures var c := EstimateSwitchingCost(p, cacheSize);
            && Mul(c.timeCost, 1048576000.0) == Min(cacheSize as real, 1048576000.0)
            && Mul(c.memoryCost, 10.0 * p.maxMemory as real) == Min(cacheSize as real, 10.0 * p.maxMemory as real)
            && c.degradationCost == 0.02
            && c.totalCost == p.weights.time * c.timeCost + p.weights.memory * c.memoryCost + p.weights.degradation * 0.02
  {
    MemoryShare(cacheSize as real, p.maxMemory as real);
  }

  lemma MemoryShare(size: real, limit: real)
    requires limit > 0.0
    ensures Mul(Min(size * 0.1 / limit, 1.0), 10.0 * limit) == Min(size, 10.0 * limit)
  {
    var share := size * 0.1 / limit;
    assert share * limit == size * 0.1;
    assert Mul(share, 10.0 * limit) == size;
    if share <= 1.0 {
      Monotone(share, 1.0, 10.0 * limit);
    } else {
      Monotone(1.0, share, 10.0 * limit);
    }
  }

  /** The gain is the improvement as a share of the current ratio, never negative. */
  lemma GainMeans(current: real, candidate: real)
    requires current >= 0.0
    ensures current == 0.0 ==> PotentialGain(current, candidate) == 0.0
    ensures Mul(PotentialGain(current, candidate), current) == if candidate < current
        && current > 0.0 then current - candidate else 0.0
  {
    if candidate < current && current > 0.0 {
      var gain := (current - candidate) / current;
      assert Mul(gain, current) == current - candidate;
    }
  }

  /**
    When a switch is recommended: exactly when the candidate's ratio is below the current one by more than cost and
    threshold together, as a share of the current one.
   */
  lemma RecommendedExactly(p: Params, a: Policy, b: Policy, current: real, candidate: real, cacheSize: nat)
    requires current >= 0.0 && EstimateSwitchingCost(p, cacheSize).totalCost + p.threshold >= 0.0
    ensures var r := Analyze(p, a, b, current, candidate, cacheSize);
            var cost := EstimateSwitchingCost(p, cacheSize).totalCost;
            && r.currentPolicy == a && r.candidatePolicy == b
            && r.currentMissRatio == current && r.candidateMissRatio == candidate
            && r.potentialGain == PotentialGain(current, candidate) && r.switchingCost.totalCost == cost
            && r.netBenefit == r.potentialGain - cost
            && (r.shouldSwitch <==> current > 0.0 && candidate < Mul(1.0 - (cost + p.threshold), current))
            && (r.shouldSwitch <==> r.netBenefit > p.threshold)
  {
    GainAbove(current, candidate, EstimateSwitchingCost(p, cacheSize).totalCost + p.threshold);
  }
}
