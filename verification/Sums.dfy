/** Sums over the entries of a map, whatever the order in which they are visited. */
module Sums {

  ghost function SumMap<K(!new)>(m: map<K, int>, f: int -> real): real {
    if m == map[] then 0.0
    else
      var k :| k in m;
      f(m[k]) + SumMap(m - {k}, f)
  }

  lemma {:induction false} SumRemove<K(!new)>(m: map<K, int>, f: int -> real, k: K)
    requires k in m
    ensures SumMap(m, f) == f(m[k]) + SumMap(m - {k}, f)
  {
    var j :| j in m && SumMap(m, f) == f(m[j]) + SumMap(m - {j}, f);
    if j != k {
      SumRemove(m - {j}, f, k);
      SumRemove(m - {k}, f, j);
      assert m - {j} - {k} == m - {k} - {j};
    }
  }

  lemma SumUpdate<K(!new)>(m: map<K, int>, f: int -> real, k: K, v: int)
    ensures SumMap(m[k := v], f) == f(v) + SumMap(m, f) - if k in m then f(m[k]) else 0.0
  {
    SumRemove(m[k := v], f, k);
    if k in m {
      SumRemove(m, f, k);
      assert m[k := v] - {k} == m - {k};
    } else {
      assert m[k := v] - {k} == m;
    }
  }

  /** x + b*y + c*n */
  function Combine(b: real, c: real, x: real, y: real, n: real): real {
    x + b * y + c * n
  }

  /** Entrywise f = g + b*h + c gives the same relation between the sums. */
  lemma {:induction false} SumLinear<K(!new)>(m: map<K, int>, f: int -> real, g: int -> real, h: int -> real,
      b: real, c: real)
    requires forall x :: f(x) == Combine(b, c, g(x), h(x), 1.0)
    ensures SumMap(m, f) == Combine(b, c, SumMap(m, g), SumMap(m, h), |m| as real)
  {
    if m == map[] {
      assert SumMap(m, f) == 0.0 && SumMap(m, g) == 0.0 && SumMap(m, h) == 0.0;
    } else {
      var k :| k in m;
      var rest := m - {k};
      SumLinear(rest, f, g, h, b, c);
      assert SumMap(m, f) == Combine(b, c, g(m[k]), h(m[k]), 1.0)
          + Combine(b, c, SumMap(rest, g), SumMap(rest, h), |rest| as real) by {
        SumRemove(m, f, k);
      }
      LinearStep(b, c, g(m[k]), h(m[k]), SumMap(rest, g), SumMap(rest, h), |rest| as real);
      assert SumMap(m, g) == g(m[k]) + SumMap(rest, g) && SumMap(m, h) == h(m[k]) + SumMap(rest, h) by {
        SumRemove(m, g, k);
        SumRemove(m, h, k);
      }
      assert |m| as real == |rest| as real + 1.0 by {
        SizeRemove(m, k);
      }
    }
  }

  lemma LinearStep(b: real, c: real, x: real, y: real, s: real, t: real, n: real)
    ensures Combine(b, c, x, y, 1.0) + Combine(b, c, s, t, n) == Combine(b, c, x + s, y + t, n + 1.0)
  {
  }

  lemma SizeRemove<K(!new)>(m: map<K, int>, k: K)
    requires k in m
    ensures |m - {k}| == |m| - 1
  {
    assert (m - {k}).Keys == m.Keys - {k};
  }

  /** A sum of non-negative terms is non-negative, and zero only when every term is. */
  lemma {:induction false} SumNonNegative<K(!new)>(m: map<K, int>, f: int -> real)
    requires forall x :: f(x) >= 0.0
    ensures SumMap(m, f) >= 0.0
    ensures SumMap(m, f) == 0.0 <==> forall k | k in m :: f(m[k]) == 0.0
  {
    if m == map[] {
    } else {
      var k :| k in m;
      SumRemove(m, f, k);
      SumNonNegative(m - {k}, f);
      assert forall j | j in m :: j == k || (j in m - {k} && (m - {k})[j] == m[j]);
    }
  }

  /** Renaming the keys one to one leaves the sum unchanged. */
  lemma {:induction false} SumRename<K(!new), L(!new)>(m: map<K, int>, n: map<L, int>, f: int -> real, rename: K -> L)
    requires n.Keys == set k | k in m :: rename(k)
    requires forall j, k | j in m && k in m && rename(j) == rename(k) :: j == k
    requires forall k | k in m :: n[rename(k)] == m[k]
    ensures SumMap(m, f) == SumMap(n, f) && |m| == |n|
  {
    if m == map[] {
      assert n == map[];
    } else {
      var k :| k in m;
      var m', n' := m - {k}, n - {rename(k)};
      assert n'.Keys == set j | j in m' :: rename(j);
      SumRename(m', n', f, rename);
      SumRemove(m, f, k);
      SumRemove(n, f, rename(k));
      SizeRemove(m, k);
      SizeRemove(n, rename(k));
    }
  }
}
