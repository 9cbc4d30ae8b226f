/** The trend analyser: regression and variance over the miss ratios of one policy (pkg/adaptive/trend.go). */
module Trend {
  import opened Arith
  import opened CacheTypes
  import opened Fit
  import opened Regression

  datatype Thresholds = Thresholds(degradation: real, variance: real, minSamples: int)

  datatype TrendScore = TrendScore(
    indicatesDegradation: bool, slope: real, variance: real, intercept: real, confidence: real, sampleSize: nat)

  datatype Prediction = Predicted(value: real, confidence: real) | InsufficientData(needed: int, got: nat)

  /** Thresholds the setter can produce from the defaults: all three stay positive. */
  ghost predicate Positive(t: Thresholds) {
    t.degradation > 0.0 && t.variance > 0.0 && t.minSamples > 0
  }

  // ----- specification -----

  /** The snapshots taken while p was active, in order. */
  ghost function Keep(h: seq<MetricsSnapshot>, p: Policy): seq<MetricsSnapshot> {
    if h == [] then []
    else
      var last := h[|h| - 1];
      var front := Keep(h[..|h| - 1], p);
      if last.currentPolicy == p then front + [last] else front
  }

  ghost function MissRatios(h: seq<MetricsSnapshot>): (r: seq<real>)
    ensures |r| == |h| && forall i | 0 <= i < |h| :: r[i] == h[i].missRatio
  {
    seq(|h|, i requires 0 <= i < |h| => h[i].missRatio)
  }

  ghost function Samples(h: seq<MetricsSnapshot>, p: Policy): seq<real> {
    MissRatios(Keep(h, p))
  }

  ghost function Confidence(v: seq<real>): real {
    if |v| < 2 then 0.0 else RSquared(v, Slope(v), Intercept(v))
  }

  ghost function Score(t: Thresholds, h: seq<MetricsSnapshot>, p: Policy): TrendScore {
    var v := Samples(h, p);
    if |h| < t.minSamples then TrendScore(false, 0.0, 0.0, 0.0, 0.0, |h|)
    else if |v| < t.minSamples then TrendScore(false, 0.0, 0.0, 0.0, 0.0, |v|)
    else
      TrendScore(Slope(v) > t.degradation || Variance(v) > t.variance, Slope(v), Variance(v), Intercept(v),
          Confidence(v), |v|)
  }

  function Clamp(x: real): real {
    if x < 0.0 then 0.0 else if x > 1.0 then 1.0 else x
  }

  ghost function Next(t: Thresholds, h: seq<MetricsSnapshot>, p: Policy): Prediction {
    var v := Samples(h, p);
    if |v| < t.minSamples then InsufficientData(t.minSamples, |v|)
    else Predicted(Clamp(Line(Slope(v), Intercept(v), |v| as real)), Confidence(v))
  }

  // ----- the analyser -----

  class TrendAnalyzer {
    var degradationThreshold: real
    var varianceThreshold: real
    var minSamples: int

    ghost function Config(): Thresholds
      reads this
    {
      Thresholds(degradationThreshold, varianceThreshold, minSamples)
    }

    constructor ()
      ensures Config() == Thresholds(0.01, 0.05, 3) && Positive(Config())
    {
      degradationThreshold, varianceThreshold, minSamples := 0.01, 0.05, 3;
    }

    /** Non-positive arguments leave the field as it was, so the thresholds stay positive over any run. */
    method SetThresholds(degradation: real, variance: real, samples: int)
      modifies this
      ensures Config() == Thresholds(
        if degradation > 0.0 then degradation else old(degradationThreshold),
        if variance > 0.0 then variance else old(varianceThreshold),
        if samples > 0 then samples else old(minSamples))
      ensures old(Positive(Config())) ==> Positive(Config())
    {
      if degradation > 0.0 {
        degradationThreshold := degradation;
      }
      if variance > 0.0 {
        varianceThreshold := variance;
      }
      if samples > 0 {
        minSamples := samples;
      }
    }

    method ExtractMissRatios(history: seq<MetricsSnapshot>, policyName: Policy) returns (missRatios: seq<real>)
      ensures missRatios == Samples(history, policyName)
    {
      missRatios := [];
      for i := 0 to |history|
        invariant missRatios == Samples(history[..i], policyName)
      {
        assert history[..i + 1][..i] == history[..i];
        if history[i].currentPolicy == policyName {
          missRatios := missRatios + [history[i].missRatio];
        }
      }
      assert history[..|history|] == history;
    }

    /** For two or more values: the unique least-squares line over the points (i, values[i]). */
    method LinearRegression(values: seq<real>) returns (slope: real, intercept: real, rSquared: real)
      ensures |values| < 2 ==> slope == 0.0 && intercept == 0.0 && rSquared == 0.0
      ensures |values| >= 2 ==> IsLeastSquares(values, slope, intercept)
      ensures |values| >= 2 ==> forall a, b :: IsLeastSquares(values, a, b) ==> a == slope && b == intercept
      ensures slope == Slope(values) && intercept == Intercept(values) && rSquared == Confidence(values)
    {
      var n := |values| as real;
      if n < 2.0 {
        return 0.0, 0.0, 0.0;
      }
      var sumX, sumY, sumXY, sumX2 := 0.0, 0.0, 0.0, 0.0;
      for i := 0 to |values|
        invariant sumX == SumX(i) && sumY == SumY(values, i) && sumXY == SumXY(values, i) && sumX2 == SumX2(i)
      {
        var x, y := i as real, values[i];
        sumX, sumY, sumXY, sumX2 := sumX + x, sumY + y, sumXY + x * y, sumX2 + x * x;
      }
      DenominatorPositive(|values|);
      if Det(n, sumX2, sumX) == 0.0 {
        // the answer (0, mean, 0) is never given
        assert false;
      }
      slope := FitSlope(n, sumXY, sumX2, sumX, sumY);
      intercept := FitIntercept(n, slope, sumX, sumY);
      rSquared := CalculateRSquared(values, slope, intercept);
      LeastSquares(values);
    }

    method CalculateRSquared(values: seq<real>, slope: real, intercept: real) returns (rSquared: real)
      ensures rSquared == RSquared(values, slope, intercept)
    {
      var n := |values|;
      if n == 0 {
        return 0.0;
      }
      var mean := 0.0;
      for i := 0 to n
        invariant mean == SumY(values, i)
      {
        mean := mean + values[i];
      }
      mean := mean / n as real;
      var ssTot, ssRes := 0.0, 0.0;
      for i := 0 to n
        invariant ssTot == Spread(values, mean, i) && ssRes == Residuals(values, slope, intercept, i)
      {
        var x, y := i as real, values[i];
        var predicted := Line(slope, intercept, x);
        ssTot := ssTot + Square(y - mean);
        ssRes := ssRes + Square(y - predicted);
      }
      if ssTot == 0.0 {
        return 0.0;
      }
      rSquared := 1.0 - ssRes / ssTot;
      if rSquared < 0.0 {
        rSquared := 0.0;
      }
    }

    method CalculateVariance(values: seq<real>) returns (variance: real)
      ensures variance == Variance(values)
    {
      var n := |values|;
      if n == 0 {
        return 0.0;
      }
      var mean := 0.0;
      for i := 0 to n
        invariant mean == SumY(values, i)
      {
        mean := mean + values[i];
      }
      mean := mean / n as real;
      variance := 0.0;
      for i := 0 to n
        invariant variance == Spread(values, mean, i)
      {
        var diff := values[i] - mean;
        variance := variance + Square(diff);
      }
      variance := variance / n as real;
    }

    method AnalyzeTrend(history: seq<MetricsSnapshot>, policyName: Policy) returns (score: TrendScore)
      ensures score == Score(Config(), history, policyName)
    {
      if |history| < minSamples {
        return TrendScore(false, 0.0, 0.0, 0.0, 0.0, |history|);
      }
      var missRatios := ExtractMissRatios(history, policyName);
      if |missRatios| < minSamples {
        return TrendScore(false, 0.0, 0.0, 0.0, 0.0, |missRatios|);
      }
      var slope, intercept, rSquared := LinearRegression(missRatios);
      var variance := CalculateVariance(missRatios);
      var degrading, unstable := slope > degradationThreshold, variance > varianceThreshold;
      return TrendScore(degrading || unstable, slope, variance, intercept, rSquared, |missRatios|);
    }

    method PredictNextValue(history: seq<MetricsSnapshot>, policyName: Policy) returns (r: Prediction)
      ensures r == Next(Config(), history, policyName)
    {
      var missRatios := ExtractMissRatios(history, policyName);
      if |missRatios| < minSamples {
        return InsufficientData(minSamples, |missRatios|);
      }
      var slope, intercept, rSquared := LinearRegression(missRatios);
      var predicted := Line(slope, intercept, |missRatios| as real);
      if predicted < 0.0 {
        predicted := 0.0;
      } else if predicted > 1.0 {
        predicted := 1.0;
      }
      return Predicted(predicted, rSquared);
    }
  }

  // ----- what the scores mean -----

  lemma {:induction false} KeepMembers(h: seq<MetricsSnapshot>, p: Policy, i: nat)
    requires i < |Keep(h, p)|
    ensures Keep(h, p)[i] in h && Keep(h, p)[i].currentPolicy == p
  {
    var front := h[..|h| - 1];
    if i < |Keep(front, p)| {
      KeepMembers(front, p, i);
    }
  }

  lemma {:induction false} KeepIdempotent(h: seq<MetricsSnapshot>, p: Policy)
    ensures Keep(Keep(h, p), p) == Keep(h, p)
  {
    if h == [] {
    } else {
      var front, last := h[..|h| - 1], h[|h| - 1];
      KeepIdempotent(front, p);
      if last.currentPolicy == p {
        var k := Keep(h, p);
        assert k[..|k| - 1] == Keep(front, p);
      }
    }
  }

  lemma {:induction false} KeepAll(h: seq<MetricsSnapshot>, p: Policy)
    ensures |Keep(h, p)| <= |h|
    ensures |Keep(h, p)| == |h| <==> forall i | 0 <= i < |h| :: h[i].currentPolicy == p
  {
    if h == [] {
    } else {
      var front, last := h[..|h| - 1], h[|h| - 1];
      KeepAll(front, p);
      assert forall i | 0 <= i < |front| :: front[i] == h[i];
    }
  }

  lemma {:induction false} KeepEach(h: seq<MetricsSnapshot>, p: Policy)
    requires forall i | 0 <= i < |h| :: h[i].currentPolicy == p
    ensures Keep(h, p) == h
  {
    if h == [] {
    } else {
      KeepEach(h[..|h| - 1], p);
    }
  }

  lemma ScoreNeedsSamples(t: Thresholds, h: seq<MetricsSnapshot>, p: Policy)
    ensures Score(t, h, p).indicatesDegradation ==> |Samples(h, p)| >= t.minSamples
  {
  }

  /** The share of the squared deviations from the mean that the least-squares line explains. */
  lemma {:induction false} ConfidenceMeans(v: seq<real>)
    requires |v| >= 2
    ensures Constant(v) ==> Confidence(v) == 0.0
    ensures Mul(Confidence(v), Residuals(v, 0.0, Mean(v), |v|))
              == Residuals(v, 0.0, Mean(v), |v|) - Residuals(v, Slope(v), Intercept(v), |v|)
  {
    hide RSquared, Slope, Intercept, Constant, Spread, Residuals, Mean, Mul;
    LeastSquares(v);
    SpreadIsResidual(v, Mean(v), |v|);
    SpreadZero(v);
    ResidualsNonNegative(v, Slope(v), Intercept(v), |v|);
    RSquaredMeans(v, Slope(v), Intercept(v));
    assert Residuals(v, Slope(v), Intercept(v), |v|) <= Residuals(v, 0.0, Mean(v), |v|);
    if Constant(v) {
      ZeroTimes(Residuals(v, 0.0, Mean(v), |v|));
    }
  }

  /**
    What the figures of a score with enough samples are: the least-squares line over the policy's ratios, their mean
    squared deviation, and the share of it that the line explains.
   */
  lemma {:induction false} ScoreMeans(t: Thresholds, h: seq<MetricsSnapshot>, p: Policy)
    requires |Samples(h, p)| >= t.minSamples && |Samples(h, p)| >= 2
    ensures var v, s := Samples(h, p), Score(t, h, p);
            && s.sampleSize == |v|
            && IsLeastSquares(v, s.slope, s.intercept)
            && Mul(s.variance, |v| as real) == Residuals(v, 0.0, Mean(v), |v|)
            && (Constant(v) ==> s.confidence == 0.0)
            && Mul(s.confidence, Residuals(v, 0.0, Mean(v), |v|))
                 == Residuals(v, 0.0, Mean(v), |v|) - Residuals(v, s.slope, s.intercept, |v|)
            && (s.indicatesDegradation <==> s.slope > t.degradation || s.variance > t.variance)
  {
    KeepAll(h, p);
    hide Keep, MissRatios, Variance, Slope, Intercept, Confidence, Constant, IsLeastSquares, Residuals, Mean, Mul;
    var v := Samples(h, p);
    LeastSquares(v);
    VarianceMeans(v);
    ConfidenceMeans(v);
  }

  /** Too few snapshots, of all policies or of this one, are reported as such and raise no alarm. */
  lemma TooFewMeans(t: Thresholds, h: seq<MetricsSnapshot>, p: Policy)
    requires |Samples(h, p)| < t.minSamples
    ensures var s := Score(t, h, p);
            && !s.indicatesDegradation && s.slope == s.variance == s.intercept == s.confidence == 0.0
            && s.sampleSize == if |h| < t.minSamples then |h| else |Samples(h, p)|
    ensures Next(t, h, p) == InsufficientData(t.minSamples, |Samples(h, p)|)
  {
  }

  /** Snapshots of other policies change no field of the score, except the sample size of a history that is too short. */
  lemma ForeignSnapshotsIgnored(t: Thresholds, h: seq<MetricsSnapshot>, p: Policy)
    ensures Score(t, Keep(h, p), p) == Score(t, h, p).(sampleSize := Score(t, Keep(h, p), p).sampleSize)
    ensures Score(t, Keep(h, p), p) == Score(t, h, p) <==>
        |h| >= t.minSamples || forall i | 0 <= i < |h| :: h[i].currentPolicy == p
    ensures Next(t, Keep(h, p), p) == Next(t, h, p)
  {
    KeepIdempotent(h, p);
    KeepAll(h, p);
  }

  /** Miss ratios in the unit interval cannot exceed a variance threshold of 1/4 or more: only the slope is left. */
  lemma LargeVarianceThresholdIsDead(t: Thresholds, h: seq<MetricsSnapshot>, p: Policy)
    requires Positive(t) && t.variance >= 0.25
    requires forall s | s in h :: 0.0 <= s.missRatio <= 1.0
    ensures Score(t, h, p).indicatesDegradation <==> |Samples(h, p)| >= t.minSamples && Slope(Samples(h, p)) > t.degradation
  {
    KeepAll(h, p);
    var v := Samples(h, p);
    if |v| >= t.minSamples {
      forall i | 0 <= i < |v|
        ensures 0.0 <= v[i] <= 1.0
      {
        KeepMembers(h, p, i);
      }
      UnitBounds(v);
    }
  }

  /**
    The bound 1/4 is the best one: every smaller threshold is exceeded by some history of four snapshots without
    slope alarm.
   */
  lemma QuarterIsTight(p: Policy, threshold: real)
    requires 0.0 < threshold < 0.25
    ensures exists h: seq<MetricsSnapshot> ::
              && (forall s | s in h :: 0.0 <= s.missRatio <= 1.0)
              && Score(Thresholds(1.0, threshold, 4), h, p).indicatesDegradation
  {
    var lo := MetricsSnapshot(0, p, 0.0, 0, 0, 0, 0, 0);
    var hi := lo.(missRatio := 1.0);
    var h := [lo, hi, lo, hi];
    assert forall i | 0 <= i < 4 :: h[i].currentPolicy == p;
    KeepEach(h, p);
    hide Keep;
    var v := Samples(h, p);
    assert v == [0.0, 1.0, 0.0, 1.0];
    AlternatingVariance(v);
    hide Variance, Slope, Intercept, Confidence;
    assert Score(Thresholds(1.0, threshold, 4), h, p).indicatesDegradation;
  }

  lemma AlternatingVariance(v: seq<real>)
    requires v == [0.0, 1.0, 0.0, 1.0]
    ensures Variance(v) == 0.25
  {
    assert v[0] == 0.0 && v[1] == 1.0 && v[2] == 0.0 && v[3] == 1.0;
    assert SumY(v, 0) == 0.0;
    assert SumY(v, 1) == SumY(v, 0) + v[0];
    assert SumY(v, 2) == SumY(v, 1) + v[1];
    assert SumY(v, 3) == SumY(v, 2) + v[2];
    assert SumY(v, 4) == SumY(v, 3) + v[3];
    assert Mean(v) == 0.5;
    assert Square(0.0 - 0.5) == 0.25 && Square(1.0 - 0.5) == 0.25;
    hide Square, SumY, Mean;
    assert Spread(v, 0.5, 0) == 0.0;
    assert Spread(v, 0.5, 1) == Spread(v, 0.5, 0) + Square(v[0] - 0.5);
    assert Spread(v, 0.5, 2) == Spread(v, 0.5, 1) + Square(v[1] - 0.5);
    assert Spread(v, 0.5, 3) == Spread(v, 0.5, 2) + Square(v[2] - 0.5);
    assert Spread(v, 0.5, 4) == Spread(v, 0.5, 3) + Square(v[3] - 0.5);
  }

  /** A steady drift a per snapshot is reported exactly when a, or a^2 (n^2 - 1) / 12, is above its threshold. */
  lemma DriftDetection(t: Thresholds, h: seq<MetricsSnapshot>, p: Policy, a: real, b: real)
    requires Positive(t) && |Samples(h, p)| >= 2 && OnLine(Samples(h, p), a, b)
    ensures Score(t, h, p).indicatesDegradation <==>
            && |Samples(h, p)| >= t.minSamples
            && (a > t.degradation || Mul(Square(a), SpanOf(|Samples(h, p)|)) > 12.0 * t.variance)
  {
    KeepAll(h, p);
    ExactRecovery(Samples(h, p), a, b);
    VarianceBoundsSlope(Samples(h, p));
  }

  /** Two or more snapshots a*i + b predict a*n + b, or the nearest end of the unit interval. */
  lemma {:induction false} PredictionOnLine(t: Thresholds, h: seq<MetricsSnapshot>, p: Policy, a: real, b: real)
    requires |Samples(h, p)| >= 2 && |Samples(h, p)| >= t.minSamples
    requires forall i | 0 <= i < |Samples(h, p)| :: Samples(h, p)[i] == a * i as real + b
    ensures Next(t, h, p).Predicted?
    ensures var next := a * |Samples(h, p)| as real + b;
            Next(t, h, p).value == if next < 0.0 then 0.0 else if next > 1.0 then 1.0 else next
  {
    LinearValues(Samples(h, p), a, b);
    hide Samples, Slope, Intercept, Confidence;
  }

  /**
    With minSamples lowered to 1 a single snapshot yields the prediction 0, whatever was measured. So a series
    that stays at c is predicted to stay there exactly when there are two samples, or c is zero.
   */
  lemma ConstantPrediction(t: Thresholds, h: seq<MetricsSnapshot>, p: Policy, c: real)
    requires Positive(t) && 0.0 <= c <= 1.0
    requires |Samples(h, p)| >= t.minSamples && OnLine(Samples(h, p), 0.0, c)
    ensures Next(t, h, p).Predicted?
    ensures Next(t, h, p).value == c <==> |Samples(h, p)| >= 2 || c == 0.0
  {
    var v := Samples(h, p);
    if |v| >= 2 {
      assert forall i | 0 <= i < |v| :: v[i] == Line(0.0, c, i as real);
      PredictionOnLine(t, h, p, 0.0, c);
    } else {
      assert Line(Slope(v), Intercept(v), 1.0) == 0.0;
    }
  }

  lemma SingleSnapshotMispredicted()
    ensures exists h: seq<MetricsSnapshot>, p ::
              Samples(h, p) == [0.5] && Next(Thresholds(0.01, 0.05, 1), h, p) == Predicted(0.0, 0.0)
  {
    var p: Policy := "lru";
    var s := MetricsSnapshot(0, p, 0.5, 0, 0, 0, 0, 0);
    assert Keep([s], p) == [s];
    assert Samples([s], p) == [0.5];
    assert Line(Slope([0.5]), Intercept([0.5]), 1.0) == 0.0;
  }
}
