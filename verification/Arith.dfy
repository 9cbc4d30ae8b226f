/** Ring and order facts over the reals, each kept away from any other context. */
module Arith {

  function Square(x: real): real {
    x * x
  }

  /** The value of the line with slope a and intercept b at x. */
  function Line(a: real, b: real, x: real): real {
    a * x + b
  }

  function Mul(x: real, y: real): real {
    x * y
  }

  /** Determinant of the normal equations for k points. */
  function Det(k: real, sxx: real, sx: real): real {
    k * sxx - sx * sx
  }

  function Span(x: real): real {
    x * x - 1.0
  }

  /** da * (sxy - a*sxx - b*sx) + db * (sy - a*sx - b*k), with the sums as arguments. */
  function CrossForm(a: real, b: real, da: real, db: real, k: real, sxy: real, sxx: real, sx: real, sy: real): real {
    da * (sxy - a * sxx - b * sx) + db * (sy - a * sx - b * k)
  }

  /** da^2 * sxx + 2*da*db*sx + db^2 * k */
  function ApartForm(da: real, db: real, k: real, sxx: real, sx: real): real {
    da * da * sxx + 2.0 * da * db * sx + db * db * k
  }

  lemma ProductSign(x: real, y: real)
    requires x >= 0.0 && y >= 0.0
    ensures Mul(x, y) >= 0.0
    ensures x > 0.0 && y > 0.0 ==> Mul(x, y) > 0.0
  {
  }

  lemma SquareSign(x: real)
    ensures Square(x) >= 0.0
    ensures Square(x) == 0.0 <==> x == 0.0
  {
    var y := if x < 0.0 then -x else x;
    ProductSign(y, y);
    assert Mul(y, y) == Square(x);
    if x == 0.0 {
      assert Square(0.0) == 0.0;
    }
  }

  lemma Monotone(x: real, y: real, z: real)
    requires x <= y && z >= 0.0
    ensures Mul(x, z) <= Mul(y, z)
    ensures x < y && z > 0.0 ==> Mul(x, z) < Mul(y, z)
  {
    assert Mul(y - x, z) == Mul(y, z) - Mul(x, z);
    hide Mul;
    ProductSign(y - x, z);
  }

  lemma QuotientSign(p: real, q: real)
    requires p >= 0.0 && q > 0.0
    ensures p / q >= 0.0
    ensures p > 0.0 ==> p / q > 0.0
  {
    var w := p / q;
    assert w * q == p;
    if w < 0.0 {
      Monotone(w, 0.0, q);
    }
  }

  lemma RatioInUnit(p: real, q: real)
    requires 0.0 <= p <= q && q > 0.0
    ensures 0.0 <= p / q <= 1.0
    ensures p / q == 0.0 <==> p == 0.0
  {
    var w := p / q;
    assert w * q == p;
    if w > 1.0 {
      Monotone(1.0, w, q);
    } else if w < 0.0 {
      Monotone(w, 0.0, q);
    }
  }

  lemma ScaleOrder(x: real, y: real, z: real)
    requires z > 0.0
    ensures Mul(x, z) < Mul(y, z) <==> x < y
  {
    if x < y {
      Monotone(x, y, z);
    } else {
      Monotone(y, x, z);
    }
  }

  lemma Cancel(x: real, y: real, z: real)
    requires z != 0.0 && x * z == y * z
    ensures x == y
  {
    assert x == x * z / z;
    assert y == y * z / z;
  }

  // ----- ring identities, one for each inductive step over a sum -----

  lemma SumXStep(x: real)
    ensures (x + 1.0) * x == x * (x - 1.0) + 2.0 * x
  {
  }

  lemma SumX2Step(x: real)
    ensures (x + 1.0) * x * (2.0 * (x + 1.0) - 1.0) == x * (x - 1.0) * (2.0 * x - 1.0) + 6.0 * Square(x)
  {
  }

  lemma DenominatorIdentity(x: real, s: real, q: real)
    requires 2.0 * s == x * (x - 1.0) && 6.0 * q == x * (x - 1.0) * (2.0 * x - 1.0)
    ensures 12.0 * Det(x, q, s) == Mul(Mul(x, x), Span(x))
  {
    assert q == x * (x - 1.0) * (2.0 * x - 1.0) / 6.0;
    assert s == x * (x - 1.0) / 2.0;
  }

  lemma ShiftStep(y: real, a: real, b: real, da: real, db: real, x: real)
    ensures Square(y - Line(a + da, b + db, x))
         == Square(y - Line(a, b, x)) - 2.0 * Mul(y - Line(a, b, x), Line(da, db, x)) + Square(Line(da, db, x))
  {
  }

  lemma CrossStep(y: real, a: real, b: real, da: real, db: real, x: real, k: real, sxy: real, sxx: real, sx: real, sy: real)
    ensures CrossForm(a, b, da, db, k, sxy, sxx, sx, sy) + Mul(y - Line(a, b, x), Line(da, db, x))
         == CrossForm(a, b, da, db, k + 1.0, sxy + Mul(x, y), sxx + Square(x), sx + x, sy + y)
  {
  }

  lemma ApartStep(da: real, db: real, x: real, k: real, sxx: real, sx: real)
    ensures ApartForm(da, db, k, sxx, sx) + Square(Line(da, db, x))
         == ApartForm(da, db, k + 1.0, sxx + Square(x), sx + x)
  {
  }

  lemma ScaleDifference(p: real, a: real, q: real, x: real)
    requires x > 0.0
    ensures (p / x - a * (q / x)) * x == p - a * q
  {
    var u, w := p / x, q / x;
    assert (u - a * w) * x == u * x - a * (w * x);
  }

  lemma NormalIdentity(x: real, sx: real, sy: real, sxy: real, sxx: real, a: real, b: real)
    requires x > 0.0 && a * (x * sxx - sx * sx) == x * sxy - sx * sy && b * x == sy - a * sx
    ensures sxy == a * sxx + b * sx
  {
    assert x * (a * sxx + b * sx) == a * (x * sxx) + (b * x) * sx;
    assert (sy - a * sx) * sx == sy * sx - a * (sx * sx);
    assert a * (x * sxx - sx * sx) == a * (x * sxx) - a * (sx * sx);
    assert x * (a * sxx + b * sx - sxy) == 0.0;
  }

  /** Slope and intercept of a simple regression, as functions of the accumulated sums. */
  function FitSlope(k: real, sxy: real, sxx: real, sx: real, sy: real): real
    requires Det(k, sxx, sx) != 0.0
  {
    (k * sxy - sx * sy) / Det(k, sxx, sx)
  }

  function FitIntercept(k: real, slope: real, sx: real, sy: real): real
    requires k != 0.0
  {
    sy / k - slope * (sx / k)
  }

  /** The fitted line solves the normal equations, so the mixed term against any other line is zero. */
  lemma FitIsStationary(k: real, sxy: real, sxx: real, sx: real, sy: real, da: real, db: real)
    requires k > 0.0 && Det(k, sxx, sx) != 0.0
    ensures var a := FitSlope(k, sxy, sxx, sx, sy);
            CrossForm(a, FitIntercept(k, a, sx, sy), da, db, k, sxy, sxx, sx, sy) == 0.0
  {
    var d, num := Det(k, sxx, sx), k * sxy - sx * sy;
    var a := FitSlope(k, sxy, sxx, sx, sy);
    var b := FitIntercept(k, a, sx, sy);
    assert a * d == num by {
      assert num / d * d == num;
    }
    ScaleDifference(sy, a, sx, k);
    NormalIdentity(k, sx, sy, sxy, sxx, a, b);
    assert sxy - a * sxx - b * sx == 0.0;
    assert sy - a * sx - b * k == 0.0;
  }

  /** Distance of the fitted line from the mean line: slope^2 * (n*sxx - sx^2) / n. */
  lemma FitAgainstMean(k: real, a: real, sxx: real, sx: real, sy: real)
    requires k > 0.0
    ensures Mul(k, ApartForm(0.0 - a, sy / k - FitIntercept(k, a, sx, sy), k, sxx, sx)) == Mul(Square(a), Det(k, sxx, sx))
  {
    var m := sx / k;
    assert sx == m * k;
    assert sy / k - FitIntercept(k, a, sx, sy) == a * m;
    MeanLineIdentity(k, a, sxx, m);
  }

  lemma MeanLineIdentity(k: real, a: real, sxx: real, m: real)
    ensures k * ApartForm(0.0 - a, a * m, k, sxx, m * k) == Square(a) * (k * sxx - (m * k) * (m * k))
  {
  }

  /** sum * (1 - 2*m) + k * m^2: bounds the squared deviations from m of k values in the unit interval. */
  function UnitForm(sum: real, m: real, k: real): real {
    sum * (1.0 - 2.0 * m) + k * (m * m)
  }

  lemma UnitFormStep(sum: real, y: real, m: real, k: real)
    ensures UnitForm(sum + y, m, k + 1.0) == UnitForm(sum, m, k) + UnitForm(y, m, 1.0)
  {
  }

  lemma UnitDeviation(y: real, m: real)
    requires 0.0 <= y <= 1.0
    ensures Square(y - m) <= UnitForm(y, m, 1.0)
  {
    ProductSign(y, 1.0 - y);
    assert UnitForm(y, m, 1.0) == Square(y - m) + Mul(y, 1.0 - y);
  }

  lemma QuarterBound(m: real)
    ensures m - m * m <= 0.25
  {
    SquareSign(m - 0.5);
    assert Square(m - 0.5) == m * m - m + 0.25;
  }
}
