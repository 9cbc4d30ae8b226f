/** Goodness of fit and spread of a series, and what ties them to the fitted slope. */
module Fit {
  import opened Arith
  import opened Regression

  /** Sum of squared deviations from m over the first k values. */
  function Spread(v: seq<real>, m: real, k: nat): real
    requires k <= |v|
  {
    if k == 0 then 0.0 else Spread(v, m, k - 1) + Square(v[k - 1] - m)
  }

  function Variance(v: seq<real>): real {
    if |v| == 0 then 0.0 else Spread(v, Mean(v), |v|) / |v| as real
  }

  /** One minus residual over total sum of squares, clamped at zero; zero for a series without spread. */
  function RSquared(v: seq<real>, a: real, b: real): real {
    if |v| == 0 then 0.0
    else
      var total := Spread(v, Mean(v), |v|);
      if total == 0.0 then 0.0
      else
        var r := 1.0 - Residuals(v, a, b, |v|) / total;
        if r < 0.0 then 0.0 else r
  }

  ghost predicate InUnit(v: seq<real>) {
    forall i | 0 <= i < |v| :: 0.0 <= v[i] <= 1.0
  }

  lemma {:induction false} SpreadIsResidual(v: seq<real>, m: real, k: nat)
    requires k <= |v|
    ensures Spread(v, m, k) == Residuals(v, 0.0, m, k)
    ensures Spread(v, m, k) >= 0.0
  {
    if k == 0 {
    } else {
      SpreadIsResidual(v, m, k - 1);
      assert Line(0.0, m, (k - 1) as real) == m;
      SquareSign(v[k - 1] - m);
    }
  }

  /** Total spread is what the fitted line leaves plus what its slope explains: slope^2 * n (n^2 - 1) / 12. */
  lemma SpreadSplit(v: seq<real>)
    requires |v| >= 2
    ensures 12.0 * (Spread(v, Mean(v), |v|) - Residuals(v, Slope(v), Intercept(v), |v|))
         == Mul(Square(Slope(v)), Mul(|v| as real, SpanOf(|v|)))
  {
    hide Square, Mul, ApartForm, FitIntercept, FitSlope, Det;
    var n := |v|;
    var k, a := n as real, Slope(v);
    SpreadIsResidual(v, Mean(v), n);
    Decomposition(v, 0.0, Mean(v));
    ApartClosed(0.0 - a, Mean(v) - Intercept(v), n);
    FitAgainstMean(k, a, SumX2(n), SumX(n), SumY(v, n));
    DenominatorClosed(n);
    ScaleSplit(k, Spread(v, Mean(v), n) - Residuals(v, a, Intercept(v), n), Square(a), Denominator(n), SpanOf(n));
  }

  lemma ScaleSplit(k: real, gap: real, q: real, d: real, span: real)
    requires k > 0.0 && Mul(k, gap) == Mul(q, d) && 12.0 * d == Mul(Mul(k, k), span)
    ensures 12.0 * gap == Mul(q, Mul(k, span))
  {
    assert k * (12.0 * gap) == q * (12.0 * d);
    assert q * (k * k * span) == k * (q * (k * span));
    Cancel(12.0 * gap, q * (k * span), k);
  }

  ghost predicate Constant(v: seq<real>) {
    forall i, j | 0 <= i < |v| && 0 <= j < |v| :: v[i] == v[j]
  }

  lemma {:induction false} SpreadZero(v: seq<real>)
    requires v != []
    ensures Spread(v, Mean(v), |v|) >= 0.0
    ensures Spread(v, Mean(v), |v|) == 0.0 <==> Constant(v)
  {
    SpreadIsResidual(v, Mean(v), |v|);
    ResidualsZero(v, 0.0, Mean(v), |v|);
    assert (forall i | 0 <= i < |v| :: v[i] == Line(0.0, Mean(v), i as real)) <==>
        forall i | 0 <= i < |v| :: v[i] == Mean(v);
    if Constant(v) {
      assert forall i | 0 <= i < |v| :: v[i] == Line(0.0, v[0], i as real);
      ConstantSum(v, v[0], |v|);
      assert v[0] * |v| as real / |v| as real == v[0];
    }
  }

  /**
    For any line: no values or no spread score zero; otherwise the score is the share of the spread the line
    explains, if any.
   */
  lemma {:induction false} RSquaredMeans(v: seq<real>, a: real, b: real)
    ensures Constant(v) ==> RSquared(v, a, b) == 0.0
    ensures !Constant(v) ==>
              var total, res := Spread(v, Mean(v), |v|), Residuals(v, a, b, |v|);
              Mul(RSquared(v, a, b), total) == if res <= total then total - res else 0.0
  {
    if v != [] {
      SpreadZero(v);
      hide Constant;
      var total, res := Spread(v, Mean(v), |v|), Residuals(v, a, b, |v|);
      if total > 0.0 {
        Explained(res, total);
      }
    }
  }

  lemma Explained(res: real, total: real)
    requires total > 0.0
    ensures var r := 1.0 - res / total;
            Mul(if r < 0.0 then 0.0 else r, total) == if res <= total then total - res else 0.0
  {
    var q := res / total;
    assert Mul(q, total) == res;
    assert Mul(1.0 - q, total) == total - res;
    assert Mul(1.0, total) == total;
    hide Mul;
    ScaleOrder(1.0, q, total);
    ScaleOrder(q, 1.0, total);
    assert Mul(0.0, total) == 0.0 by {
      ZeroTimes(total);
    }
  }

  lemma ZeroTimes(x: real)
    ensures Mul(0.0, x) == 0.0
  {
  }

  /** The variance is the mean squared deviation from the mean. */
  lemma {:induction false} VarianceMeans(v: seq<real>)
    requires v != []
    ensures Mul(Mean(v), |v| as real) == SumY(v, |v|)
    ensures Mul(Variance(v), |v| as real) == Residuals(v, 0.0, Mean(v), |v|)
    ensures Variance(v) == 0.0 <==> Constant(v)
  {
    SpreadZero(v);
    SpreadIsResidual(v, Mean(v), |v|);
    var n, total := |v| as real, Spread(v, Mean(v), |v|);
    assert Mul(total / n, n) == total;
    assert Mul(SumY(v, |v|) / n, n) == SumY(v, |v|);
    if total != 0.0 {
      assert total / n != 0.0;
    }
  }

  /** A series has no spread exactly when it is constant, and then the fitted line is flat. */
  lemma NoSpread(v: seq<real>)
    requires |v| >= 2
    ensures Spread(v, Mean(v), |v|) == 0.0 <==> Slope(v) == 0.0 && OnLine(v, 0.0, Intercept(v))
  {
    SpreadIsResidual(v, Mean(v), |v|);
    ResidualsZero(v, 0.0, Mean(v), |v|);
    if Spread(v, Mean(v), |v|) == 0.0 {
      ExactRecovery(v, 0.0, Mean(v));
    } else if Slope(v) == 0.0 && OnLine(v, 0.0, Intercept(v)) {
      ConstantSpread(v, Intercept(v));
    }
  }

  /** For the fitted line R^2 needs no clamp, lies in [0,1], and is 1 exactly when one line passes through all points. */
  lemma RSquaredOfFit(v: seq<real>)
    requires |v| >= 2 && Spread(v, Mean(v), |v|) > 0.0
    ensures var total := Spread(v, Mean(v), |v|);
            var r := RSquared(v, Slope(v), Intercept(v));
            && 0.0 <= r <= 1.0
            && r == 1.0 - Residuals(v, Slope(v), Intercept(v), |v|) / total
            && (r == 1.0 <==> exists a, b :: OnLine(v, a, b))
  {
    var n := |v|;
    var total, res := Spread(v, Mean(v), n), Residuals(v, Slope(v), Intercept(v), n);
    ResidualsNonNegative(v, Slope(v), Intercept(v), n);
    assert res <= total by {
      SpreadIsResidual(v, Mean(v), n);
      LeastSquares(v);
    }
    RatioInUnit(res, total);
    assert res == 0.0 <==> exists a, b :: OnLine(v, a, b) by {
      ResidualsZero(v, Slope(v), Intercept(v), n);
      if a, b :| OnLine(v, a, b) {
        ExactRecovery(v, a, b);
      }
      if res == 0.0 {
        assert OnLine(v, Slope(v), Intercept(v));
      }
    }
  }

  lemma ConstantSpread(v: seq<real>, c: real)
    requires |v| >= 2 && OnLine(v, 0.0, c)
    ensures Mean(v) == c && Spread(v, Mean(v), |v|) == 0.0
  {
    ConstantSum(v, c, |v|);
    assert c * |v| as real / |v| as real == c;
    SpreadIsResidual(v, c, |v|);
    ResidualsZero(v, 0.0, c, |v|);
  }

  lemma {:induction false} ConstantSum(v: seq<real>, c: real, k: nat)
    requires k <= |v| && OnLine(v, 0.0, c)
    ensures SumY(v, k) == c * k as real
  {
    if k == 0 {
    } else {
      ConstantSum(v, c, k - 1);
      assert v[k - 1] == Line(0.0, c, (k - 1) as real) == c;
      assert c * k as real == c * (k - 1) as real + c;
    }
  }

  // ----- the two degradation signals are tied -----

  /** A slope forces a variance: 12 * variance >= slope^2 * (n^2 - 1), with equality exactly on a line. */
  lemma VarianceBoundsSlope(v: seq<real>)
    requires |v| >= 2
    ensures 12.0 * Variance(v) >= Mul(Square(Slope(v)), SpanOf(|v|))
    ensures 12.0 * Variance(v) == Mul(Square(Slope(v)), SpanOf(|v|)) <==> OnLine(v, Slope(v), Intercept(v))
  {
    var n := |v|;
    SpreadSplit(v);
    ResidualsNonNegative(v, Slope(v), Intercept(v), n);
    ResidualsZero(v, Slope(v), Intercept(v), n);
    VarianceStep(n as real, Spread(v, Mean(v), n), Residuals(v, Slope(v), Intercept(v), n), Square(Slope(v)), SpanOf(n));
  }

  lemma VarianceStep(k: real, total: real, res: real, q: real, span: real)
    requires k > 0.0 && res >= 0.0 && 12.0 * (total - res) == Mul(q, Mul(k, span))
    ensures 12.0 * (total / k) >= Mul(q, span)
    ensures 12.0 * (total / k) == Mul(q, span) <==> res == 0.0
  {
    var w, z := 12.0 * (total / k), Mul(q, span);
    assert Mul(w, k) == 12.0 * total;
    assert Mul(z, k) == Mul(q, Mul(k, span));
    hide Mul;
    ScaleOrder(w, z, k);
    ScaleOrder(z, w, k);
  }

  lemma {:induction false} UnitSpread(v: seq<real>, m: real, k: nat)
    requires k <= |v| && InUnit(v)
    ensures Spread(v, m, k) <= UnitForm(SumY(v, k), m, k as real)
  {
    if k == 0 {
      assert UnitForm(0.0, m, 0.0) == 0.0;
    } else {
      hide UnitForm, Square;
      UnitSpread(v, m, k - 1);
      UnitDeviation(v[k - 1], m);
      UnitFormStep(SumY(v, k - 1), v[k - 1], m, (k - 1) as real);
    }
  }

  /** Values in the unit interval have variance at most 1/4, and so a slope with slope^2 * (n^2 - 1) at most 3. */
  lemma UnitBounds(v: seq<real>)
    requires |v| >= 1 && InUnit(v)
    ensures Variance(v) <= 0.25
    ensures |v| >= 2 ==> Mul(Square(Slope(v)), SpanOf(|v|)) <= 3.0
  {
    var n := |v|;
    var k, m := n as real, Mean(v);
    UnitSpread(v, m, n);
    assert SumY(v, n) / k == m;
    UnitTotal(SumY(v, n), m, k, Spread(v, m, n));
    if n >= 2 {
      VarianceBoundsSlope(v);
    }
  }

  lemma UnitTotal(sum: real, m: real, k: real, total: real)
    requires k > 0.0 && m == sum / k && total <= UnitForm(sum, m, k)
    ensures total / k <= 0.25
  {
    assert sum == m * k;
    assert m * k * (1.0 - 2.0 * m) + k * (m * m) == (m - m * m) * k;
    QuarterBound(m);
    Monotone(m - m * m, 0.25, k);
    var w := total / k;
    assert w * k == total;
    if w > 0.25 {
      Monotone(0.25, w, k);
    }
  }
}
