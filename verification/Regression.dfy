/** Ordinary least squares over the points (0, v[0]), (1, v[1]), ..., as the trend analyser computes it. */
module Regression {
  import opened Arith

  // ----- the sums the loop accumulates, over the first k points -----

  function SumX(k: nat): real {
    if k == 0 then 0.0 else SumX(k - 1) + (k - 1) as real
  }

  function SumX2(k: nat): real {
    if k == 0 then 0.0 else SumX2(k - 1) + Square((k - 1) as real)
  }

  function SumY(v: seq<real>, k: nat): real
    requires k <= |v|
  {
    if k == 0 then 0.0 else SumY(v, k - 1) + v[k - 1]
  }

  function SumXY(v: seq<real>, k: nat): real
    requires k <= |v|
  {
    if k == 0 then 0.0 else SumXY(v, k - 1) + Mul((k - 1) as real, v[k - 1])
  }

  /** Sum of squared residuals of the line y = a*x + b. */
  function Residuals(v: seq<real>, a: real, b: real, k: nat): real
    requires k <= |v|
  {
    if k == 0 then 0.0
    else Residuals(v, a, b, k - 1) + Square(v[k - 1] - Line(a, b, (k - 1) as real))
  }

  /** Sum over the points of (da*x + db) squared: how far two lines are apart. */
  ghost function Apart(da: real, db: real, k: nat): real {
    if k == 0 then 0.0 else Apart(da, db, k - 1) + Square(Line(da, db, (k - 1) as real))
  }

  ghost function Cross(v: seq<real>, a: real, b: real, da: real, db: real, k: nat): real
    requires k <= |v|
  {
    if k == 0 then 0.0
    else Cross(v, a, b, da, db, k - 1)
         + Mul(v[k - 1] - Line(a, b, (k - 1) as real), Line(da, db, (k - 1) as real))
  }

  // ----- the fitted line -----

  function Mean(v: seq<real>): real
    requires |v| > 0
  {
    SumY(v, |v|) / |v| as real
  }

  function Denominator(n: nat): real {
    Det(n as real, SumX2(n), SumX(n))
  }

  function Slope(v: seq<real>): real {
    var n := |v|;
    if n < 2 || Denominator(n) == 0.0 then 0.0
    else FitSlope(n as real, SumXY(v, n), SumX2(n), SumX(n), SumY(v, n))
  }

  function Intercept(v: seq<real>): real {
    var n := |v|;
    if n < 2 then 0.0 else FitIntercept(n as real, Slope(v), SumX(n), SumY(v, n))
  }

  /** The line y = a*x + b has the smallest sum of squared residuals of all lines. */
  ghost predicate IsLeastSquares(v: seq<real>, a: real, b: real) {
    forall a', b' :: Residuals(v, a, b, |v|) <= Residuals(v, a', b', |v|)
  }

  ghost predicate OnLine(v: seq<real>, a: real, b: real) {
    forall i | 0 <= i < |v| :: v[i] == Line(a, b, i as real)
  }

  // ----- closed forms -----

  lemma {:induction false} SumXClosed(k: nat)
    ensures 2.0 * SumX(k) == k as real * (k as real - 1.0)
  {
    if k == 0 {
    } else {
      SumXClosed(k - 1);
      SumXStep((k - 1) as real);
    }
  }

  lemma {:induction false} SumX2Closed(k: nat)
    ensures 6.0 * SumX2(k) == k as real * (k as real - 1.0) * (2.0 * k as real - 1.0)
  {
    if k == 0 {
    } else {
      SumX2Closed(k - 1);
      SumX2Step((k - 1) as real);
    }
  }

  /** n^2 - 1: twelve times the variance of the abscissae 0, 1, ..., n-1. */
  function SpanOf(n: nat): real {
    Span(n as real)
  }

  /** The denominator is n^2 (n^2 - 1) / 12. */
  lemma DenominatorClosed(n: nat)
    ensures 12.0 * Denominator(n) == Mul(Mul(n as real, n as real), SpanOf(n))
  {
    SumXClosed(n);
    SumX2Closed(n);
    hide Mul, Det, Span;
    DenominatorIdentity(n as real, SumX(n), SumX2(n));
  }

  /** The zero-denominator branch is dead for two or more points. */
  lemma DenominatorPositive(n: nat)
    requires n >= 2
    ensures Denominator(n) > 0.0
  {
    DenominatorClosed(n);
    var x := n as real;
    assert Span(x) == Mul(x - 1.0, x + 1.0);
    hide Mul, Det, Span;
    ProductSign(x - 1.0, x + 1.0);
    ProductSign(x, x);
    ProductSign(Mul(x, x), Span(x));
  }

  // ----- how residuals of two lines relate -----

  lemma {:induction false} ResidualsShift(v: seq<real>, a: real, b: real, da: real, db: real, k: nat)
    requires k <= |v|
    ensures Residuals(v, a + da, b + db, k) == Residuals(v, a, b, k) - 2.0 * Cross(v, a, b, da, db, k) + Apart(da, db, k)
  {
    hide Square, Mul, Line;
    if k == 0 {
    } else {
      ResidualsShift(v, a, b, da, db, k - 1);
      ShiftStep(v[k - 1], a, b, da, db, (k - 1) as real);
    }
  }

  lemma {:induction false} CrossClosed(v: seq<real>, a: real, b: real, da: real, db: real, k: nat)
    requires k <= |v|
    ensures Cross(v, a, b, da, db, k)
         == CrossForm(a, b, da, db, k as real, SumXY(v, k), SumX2(k), SumX(k), SumY(v, k))
  {
    if k == 0 {
      assert CrossForm(a, b, da, db, 0.0, 0.0, 0.0, 0.0, 0.0) == 0.0;
    } else {
      hide CrossForm, Square, Mul, Line;
      CrossClosed(v, a, b, da, db, k - 1);
      CrossStep(v[k - 1], a, b, da, db, (k - 1) as real, (k - 1) as real,
                SumXY(v, k - 1), SumX2(k - 1), SumX(k - 1), SumY(v, k - 1));
    }
  }

  lemma {:induction false} ApartClosed(da: real, db: real, k: nat)
    ensures Apart(da, db, k) == ApartForm(da, db, k as real, SumX2(k), SumX(k))
    ensures Apart(da, db, k) >= 0.0
  {
    if k == 0 {
      assert ApartForm(da, db, 0.0, 0.0, 0.0) == 0.0;
    } else {
      hide ApartForm, Square, Line;
      ApartClosed(da, db, k - 1);
      ApartStep(da, db, (k - 1) as real, (k - 1) as real, SumX2(k - 1), SumX(k - 1));
      SquareSign(Line(da, db, (k - 1) as real));
    }
  }

  /** Two lines that agree on two or more points are the same line. */
  lemma {:induction false} ApartZero(da: real, db: real, k: nat)
    requires k >= 2 && Apart(da, db, k) <= 0.0
    ensures da == 0.0 && db == 0.0
  {
    SquareSign(Line(da, db, (k - 1) as real));
    if k == 2 {
      assert Apart(da, db, 1) == Square(Line(da, db, 0.0));
      SquareSign(Line(da, db, 0.0));
    } else {
      ApartZero(da, db, k - 1);
    }
  }

  // ----- optimality -----

  /** Pythagoras: any line's residuals are the fitted line's plus the distance between the two lines. */
  lemma Decomposition(v: seq<real>, a: real, b: real)
    requires |v| >= 2
    ensures Residuals(v, a, b, |v|) == Residuals(v, Slope(v), Intercept(v), |v|)
        + Apart(a - Slope(v), b - Intercept(v), |v|)
  {
    hide CrossForm, Square, Line, Mul, Det, FitSlope, FitIntercept;
    var da, db := a - Slope(v), b - Intercept(v);
    ResidualsShift(v, Slope(v), Intercept(v), da, db, |v|);
    CrossClosed(v, Slope(v), Intercept(v), da, db, |v|);
    DenominatorPositive(|v|);
    FitIsStationary(|v| as real, SumXY(v, |v|), SumX2(|v|), SumX(|v|), SumY(v, |v|), da, db);
  }

  /** The computed line is a least-squares line, and it is the only one. */
  lemma LeastSquares(v: seq<real>)
    requires |v| >= 2
    ensures IsLeastSquares(v, Slope(v), Intercept(v))
    ensures forall a, b :: IsLeastSquares(v, a, b) ==> a == Slope(v) && b == Intercept(v)
  {
    forall a, b
      ensures Residuals(v, Slope(v), Intercept(v), |v|) <= Residuals(v, a, b, |v|)
      ensures IsLeastSquares(v, a, b) ==> a == Slope(v) && b == Intercept(v)
    {
      Decomposition(v, a, b);
      ApartClosed(a - Slope(v), b - Intercept(v), |v|);
      if IsLeastSquares(v, a, b) {
        assert Residuals(v, a, b, |v|) <= Residuals(v, Slope(v), Intercept(v), |v|);
        ApartZero(a - Slope(v), b - Intercept(v), |v|);
      }
    }
  }

  // ----- residuals of a line through all points -----

  lemma {:induction false} ResidualsNonNegative(v: seq<real>, a: real, b: real, k: nat)
    requires k <= |v|
    ensures Residuals(v, a, b, k) >= 0.0
  {
    if k == 0 {
    } else {
      ResidualsNonNegative(v, a, b, k - 1);
      SquareSign(v[k - 1] - Line(a, b, (k - 1) as real));
    }
  }

  lemma {:induction false} ResidualsZero(v: seq<real>, a: real, b: real, k: nat)
    requires k <= |v|
    ensures Residuals(v, a, b, k) == 0.0 <==> forall i | 0 <= i < k :: v[i] == Line(a, b, i as real)
  {
    if k == 0 {
    } else {
      ResidualsZero(v, a, b, k - 1);
      ResidualsNonNegative(v, a, b, k - 1);
      SquareSign(v[k - 1] - Line(a, b, (k - 1) as real));
    }
  }

  /** Points that lie on a line are fitted by exactly that line. */
  lemma ExactRecovery(v: seq<real>, a: real, b: real)
    requires |v| >= 2 && OnLine(v, a, b)
    ensures Slope(v) == a && Intercept(v) == b
  {
    ResidualsZero(v, a, b, |v|);
    Decomposition(v, a, b);
    ResidualsNonNegative(v, Slope(v), Intercept(v), |v|);
    ApartZero(a - Slope(v), b - Intercept(v), |v|);
  }

  /** The same without any notation: values a*i + b give slope a and intercept b. */
  lemma LinearValues(v: seq<real>, a: real, b: real)
    requires |v| >= 2 && forall i | 0 <= i < |v| :: v[i] == a * i as real + b
    ensures OnLine(v, a, b) && Slope(v) == a && Intercept(v) == b
  {
    ExactRecovery(v, a, b);
  }
}
