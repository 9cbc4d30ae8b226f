/** Access counts per key and the skew score derived from them (pkg/adaptive/pattern.go). */
module Frequency {
  import opened Arith
  import opened CacheTypes
  import opened Fit
  import opened Sums

  /** A square-root function, known only by what it promises on non-negative arguments. */
  ghost predicate IsSqrt(sqrt: real -> real) {
    forall x :: x >= 0.0 ==> sqrt(x) >= 0.0 && Square(sqrt(x)) == x
  }

  function Count(): int -> real {
    (c: int) => c as real
  }

  function CountSquared(): int -> real {
    (c: int) => Square(c as real)
  }

  function Deviation(mean: real): int -> real {
    (c: int) => Square(c as real - mean)
  }

  /** Number of accesses per key. */
  function Frequencies(accesses: seq<CacheAccess>): map<string, int> {
    if accesses == [] then map[]
    else
      var m, key := Frequencies(accesses[..|accesses| - 1]), accesses[|accesses| - 1].key;
      m[key := (if key in m then m[key] else 0) + 1]
  }

  function Keys(accesses: seq<CacheAccess>): seq<string> {
    if accesses == [] then [] else Keys(accesses[..|accesses| - 1]) + [accesses[|accesses| - 1].key]
  }

  ghost predicate Positive(m: map<string, int>) {
    forall k | k in m :: m[k] >= 1
  }

  function Min(x: real, y: real): real {
    if x <= y then x else y
  }

  /** Half of (root / mean) for n accesses to k keys, capped at one. */
  function HalfVariation(root: real, k: real, n: real): real
    requires k != 0.0 && n != 0.0
  {
    Min(root / (n / k) / 2.0, 1.0)
  }

  /** Half the coefficient of variation of the counts, capped at one; zero below two keys. */
  ghost function Skew(sqrt: real -> real, m: map<string, int>, total: int): real {
    if |m| < 2 || total == 0 then 0.0
    else
      var mean := total as real / |m| as real;
      HalfVariation(sqrt(SumMap(m, Deviation(mean)) / |m| as real), |m| as real, total as real)
  }

  ghost function SkewOf(sqrt: real -> real, accesses: seq<CacheAccess>): real {
    Skew(sqrt, Frequencies(accesses), |accesses|)
  }

  /** k * sum of squared counts - N^2: zero for equal counts, N^2 * cv^2 in general. */
  ghost function Imbalance(m: map<string, int>, total: int): real {
    Mul(|m| as real, SumMap(m, CountSquared())) - Square(total as real)
  }

  // ----- the counting loop -----

  lemma {:induction false} FrequenciesCount(accesses: seq<CacheAccess>)
    ensures Positive(Frequencies(accesses))
    ensures SumMap(Frequencies(accesses), Count()) == |accesses| as real
  {
    if accesses == [] {
    } else {
      var front, key := accesses[..|accesses| - 1], accesses[|accesses| - 1].key;
      var m := Frequencies(front);
      FrequenciesCount(front);
      SumUpdate(m, Count(), key, (if key in m then m[key] else 0) + 1);
    }
  }

  lemma {:induction false} FrequencyAt(accesses: seq<CacheAccess>, key: string)
    ensures key in Frequencies(accesses) <==> multiset(Keys(accesses))[key] > 0
    ensures key in Frequencies(accesses) ==> Frequencies(accesses)[key] == multiset(Keys(accesses))[key]
  {
    if accesses == [] {
    } else {
      FrequencyAt(accesses[..|accesses| - 1], key);
    }
  }

  // ----- the score -----

  /** Sum of squared deviations from the mean count, times the number of keys, is the imbalance. */
  lemma {:induction false} DeviationIdentity(m: map<string, int>, total: int)
    requires |m| > 0 && SumMap(m, Count()) == total as real
    ensures Mul(|m| as real, SumMap(m, Deviation(total as real / |m| as real))) == Imbalance(m, total)
  {
    var k, mean := |m| as real, total as real / |m| as real;
    forall x: int
      ensures Deviation(mean)(x) == Combine(-2.0 * mean, Square(mean), CountSquared()(x), Count()(x), 1.0)
    {
      SquareOfDifference(x as real, mean);
    }
    SumLinear(m, Deviation(mean), CountSquared(), Count(), -2.0 * mean, Square(mean));
    MeanIdentity(k, mean, total as real, SumMap(m, CountSquared()));
  }

  lemma SquareOfDifference(x: real, mean: real)
    ensures Square(x - mean) == Combine(-2.0 * mean, Square(mean), Square(x), x, 1.0)
  {
  }

  lemma MeanIdentity(k: real, mean: real, n: real, q: real)
    requires k > 0.0 && mean == n / k
    ensures Mul(k, Combine(-2.0 * mean, Square(mean), q, n, k)) == Mul(k, q) - Square(n)
  {
    assert n == mean * k;
    assert k * (q - 2.0 * mean * (mean * k) + mean * mean * k) == k * q - (mean * k) * (mean * k);
  }

  /** Value of the score: (2*score)^2 * N^2 is the imbalance, capped at 4 N^2. */
  lemma SkewValue(sqrt: real -> real, m: map<string, int>, total: int)
    requires IsSqrt(sqrt) && |m| >= 2 && total > 0 && SumMap(m, Count()) == total as real
    ensures 0.0 <= Skew(sqrt, m, total) <= 1.0
    ensures Imbalance(m, total) >= 0.0
    ensures Mul(Square(2.0 * Skew(sqrt, m, total)), Square(total as real)) ==
        Min(Imbalance(m, total), 4.0 * Square(total as real))
    ensures Skew(sqrt, m, total) == 1.0 <==> Imbalance(m, total) >= 4.0 * Square(total as real)
  {
    var k, n := |m| as real, total as real;
    var dev := SumMap(m, Deviation(n / k));
    DeviationIdentity(m, total);
    DeviationsNonNegative(m, n / k);
    QuotientSign(dev, k);
    RootScale(sqrt(dev / k), dev, k, n);
    CappedRoot(sqrt(dev / k) / (n / k) / 2.0, n, Mul(k, dev));
  }

  lemma DeviationsNonNegative(m: map<string, int>, mean: real)
    ensures SumMap(m, Deviation(mean)) >= 0.0
    ensures SumMap(m, Deviation(mean)) == 0.0 <==> forall k | k in m :: m[k] as real == mean
  {
    forall x: int
      ensures Deviation(mean)(x) >= 0.0 && (Deviation(mean)(x) == 0.0 <==> x as real == mean)
    {
      SquareSign(x as real - mean);
    }
    SumNonNegative(m, Deviation(mean));
  }

  lemma RootScale(root: real, dev: real, k: real, n: real)
    requires k > 0.0 && n > 0.0 && dev >= 0.0 && root >= 0.0 && Square(root) == dev / k
    ensures n / k > 0.0
    ensures root / (n / k) / 2.0 >= 0.0
    ensures Mul(Square(2.0 * (root / (n / k) / 2.0)), Square(n)) == Mul(k, dev) >= 0.0
  {
    QuotientSign(n, k);
    var mean := n / k;
    QuotientSign(root, mean);
    var cv := root / mean;
    ScaledRoot(cv, root, mean, dev, k, n);
    ProductSign(k, dev);
    assert 2.0 * (cv / 2.0) == cv;
  }

  lemma ScaledRoot(cv: real, root: real, mean: real, dev: real, k: real, n: real)
    requires cv * mean == root && mean * k == n && Square(root) * k == dev
    ensures Mul(Square(cv), Square(n)) == Mul(k, dev)
  {
    assert Mul(Square(cv), Square(mean * k)) == Square(cv * mean) * k * k;
    assert Mul(k, Square(root) * k) == Square(root) * k * k;
  }

  lemma CappedRoot(s: real, n: real, imbalance: real)
    requires s >= 0.0 && n > 0.0 && Mul(Square(2.0 * s), Square(n)) == imbalance
    ensures Mul(Square(2.0 * Min(s, 1.0)), Square(n)) == Min(imbalance, 4.0 * Square(n))
    ensures Min(s, 1.0) == 1.0 <==> imbalance >= 4.0 * Square(n)
  {
    SquareSign(n);
    SquareOfDouble(s);
    assert Square(2.0 * 1.0) == 4.0;
    hide Square;
    ScaleOrder(Square(2.0 * s), 4.0, Square(n));
    assert Mul(4.0, Square(n)) == 4.0 * Square(n);
  }

  lemma SquareOfDouble(s: real)
    requires s >= 0.0
    ensures Square(2.0 * s) < 4.0 <==> s < 1.0
  {
    assert Mul(2.0 * s - 2.0, 2.0 * s + 2.0) == Square(2.0 * s) - 4.0;
    assert Mul(2.0 - 2.0 * s, 2.0 * s + 2.0) == 4.0 - Square(2.0 * s);
    hide Mul, Square;
    if s < 1.0 {
      ProductSign(2.0 - 2.0 * s, 2.0 * s + 2.0);
    } else {
      ProductSign(2.0 * s - 2.0, 2.0 * s + 2.0);
    }
  }

  /** The score is zero exactly when all keys were accessed equally often. */
  lemma ZeroSkew(sqrt: real -> real, m: map<string, int>, total: int)
    requires IsSqrt(sqrt) && |m| >= 2 && total > 0 && SumMap(m, Count()) == total as real
    ensures Skew(sqrt, m, total) == 0.0 <==> forall j, k | j in m && k in m :: m[j] == m[k]
  {
    var k, n := |m| as real, total as real;
    SkewValue(sqrt, m, total);
    DeviationIdentity(m, total);
    ZeroCap(Skew(sqrt, m, total), n, Imbalance(m, total), k, SumMap(m, Deviation(n / k)));
    DeviationsNonNegative(m, n / k);
    AllEqual(m, total);
  }

  lemma ZeroCap(s: real, n: real, imbalance: real, k: real, dev: real)
    requires n > 0.0 && k > 0.0 && imbalance == Mul(k, dev)
    requires Mul(Square(2.0 * s), Square(n)) == Min(imbalance, 4.0 * Square(n))
    ensures s == 0.0 <==> dev == 0.0
  {
    SquareSign(2.0 * s);
    SquareSign(n);
    ZeroProduct(Square(2.0 * s), Square(n));
    ZeroProduct(dev, k);
    assert Mul(k, dev) == Mul(dev, k);
  }

  /** All counts equal their mean exactly when they equal one another. */
  lemma AllEqual(m: map<string, int>, total: int)
    requires |m| > 0 && SumMap(m, Count()) == total as real
    ensures (forall k | k in m :: m[k] as real == total as real / |m| as real) <==>
        forall j, k | j in m && k in m :: m[j] == m[k]
  {
    if forall j, k | j in m && k in m :: m[j] == m[k] {
      var k :| k in m;
      EqualCounts(m, m[k]);
      assert Mul(m[k] as real, |m| as real) / |m| as real == m[k] as real;
    }
  }

  lemma ZeroProduct(x: real, y: real)
    requires y > 0.0
    ensures Mul(x, y) == 0.0 <==> x == 0.0
  {
    assert x == x * y / y;
  }

  lemma {:induction false} EqualCounts(m: map<string, int>, c: int)
    requires forall k | k in m :: m[k] == c
    ensures SumMap(m, Count()) == Mul(c as real, |m| as real)
  {
    if m == map[] {
    } else {
      var k :| k in m;
      EqualCounts(m - {k}, c);
      SumRemove(m, Count(), k);
      SizeRemove(m, k);
      OneMore(c as real, (|m| - 1) as real);
      hide Mul;
    }
  }

  lemma OneMore(c: real, n: real)
    ensures Mul(c, n + 1.0) == c + Mul(c, n)
  {
  }

  // ----- how many keys it takes to reach the cap -----

  lemma {:induction false} SquaresBelowSquare(m: map<string, int>)
    requires Positive(m)
    ensures SumMap(m, Count()) >= |m| as real
    ensures SumMap(m, CountSquared()) <= Square(SumMap(m, Count()))
    ensures |m| >= 2 ==> SumMap(m, CountSquared()) < Square(SumMap(m, Count()))
  {
    if m == map[] {
      assert Square(0.0) == 0.0;
    } else {
      var k :| k in m;
      var rest := m - {k};
      SquaresBelowSquare(rest);
      SumRemove(m, Count(), k);
      SumRemove(m, CountSquared(), k);
      SizeRemove(m, k);
      SquareOfSum(m[k] as real, SumMap(rest, Count()));
      hide Square;
    }
  }

  lemma SquareOfSum(c: real, s: real)
    requires c > 0.0 && s >= 0.0
    ensures Square(c + s) >= Square(c) + Square(s)
    ensures s > 0.0 ==> Square(c + s) > Square(c) + Square(s)
  {
    ProductSign(c, s);
    assert Square(c + s) == Square(c) + Square(s) + 2.0 * Mul(c, s);
  }

  /** With at most five distinct keys the score stays strictly below the cap. */
  lemma FewKeysBelowCap(sqrt: real -> real, accesses: seq<CacheAccess>)
    requires IsSqrt(sqrt) && |Frequencies(accesses)| <= 5
    ensures 0.0 <= SkewOf(sqrt, accesses) < 1.0
  {
    var m, total := Frequencies(accesses), |accesses|;
    FrequenciesCount(accesses);
    if |m| >= 2 {
      SquaresBelowSquare(m);
      SkewValue(sqrt, m, total);
      SquareSign(total as real);
      BelowCap(|m| as real, SumMap(m, CountSquared()), Square(total as real));
    }
  }

  lemma BelowCap(k: real, q: real, n2: real)
    requires 0.0 < k <= 5.0 && q < n2 && n2 > 0.0
    ensures Mul(k, q) - n2 < 4.0 * n2
  {
    Monotone(q, n2, k);
    Monotone(k, 5.0, n2);
  }

  /** Six keys are enough to reach the cap, so five is the best bound. */
  lemma SixKeysReachCap(sqrt: real -> real)
    requires IsSqrt(sqrt)
    ensures exists accesses :: |Frequencies(accesses)| == 6 && SkewOf(sqrt, accesses) == 1.0
  {
    var accesses := SixAccesses();
    SixFrequencies();
    SixSums();
    FrequenciesCount(accesses);
    SkewValue(sqrt, SixKeys(), 105);
    assert Mul(6.0, 10005.0) - Square(105.0) >= 4.0 * Square(105.0);
    assert SkewOf(sqrt, accesses) == Skew(sqrt, SixKeys(), 105) == 1.0;
  }

  function Repeat(key: string, n: nat): seq<CacheAccess> {
    if n == 0 then [] else Repeat(key, n - 1) + [CacheAccess(key, 0, false)]
  }

  function ThenEach(accesses: seq<CacheAccess>, keys: seq<string>): seq<CacheAccess> {
    if keys == [] then accesses
    else ThenEach(accesses, keys[..|keys| - 1]) + [CacheAccess(keys[|keys| - 1], 0, false)]
  }

  /** A hundred accesses to one key, then one to each of five others. */
  function SixAccesses(): seq<CacheAccess> {
    ThenEach(Repeat("a", 100), ["b", "c", "d", "e", "f"])
  }

  lemma FrequenciesAppend(accesses: seq<CacheAccess>, x: CacheAccess)
    ensures var m := Frequencies(accesses);
            Frequencies(accesses + [x]) == m[x.key := (if x.key in m then m[x.key] else 0) + 1]
  {
    assert (accesses + [x])[..|accesses|] == accesses;
  }

  lemma {:induction false} RepeatFrequencies(key: string, n: nat)
    requires n > 0
    ensures Frequencies(Repeat(key, n)) == map[key := n]
  {
    FrequenciesAppend(Repeat(key, n - 1), CacheAccess(key, 0, false));
    if n > 1 {
      RepeatFrequencies(key, n - 1);
    }
  }

  lemma {:induction false} EachFrequencies(accesses: seq<CacheAccess>, keys: seq<string>)
    requires forall i | 0 <= i < |keys| :: keys[i] !in Frequencies(accesses)
    requires forall i, j | 0 <= i < j < |keys| :: keys[i] != keys[j]
    ensures Frequencies(ThenEach(accesses, keys)) == WithOnes(Frequencies(accesses), keys)
  {
    if keys == [] {
    } else {
      var front, last := keys[..|keys| - 1], keys[|keys| - 1];
      EachFrequencies(accesses, front);
      FrequenciesCount(accesses);
      OnesAdd(Frequencies(accesses), front);
      FrequenciesAppend(ThenEach(accesses, front), CacheAccess(last, 0, false));
    }
  }

  lemma SixFrequencies()
    ensures Frequencies(SixAccesses()) == SixKeys()
  {
    RepeatFrequencies("a", 100);
    EachFrequencies(Repeat("a", 100), ["b", "c", "d", "e", "f"]);
  }

  function SixKeys(): map<string, int> {
    WithOnes(map["a" := 100], ["b", "c", "d", "e", "f"])
  }

  function WithOnes(m: map<string, int>, keys: seq<string>): map<string, int> {
    if keys == [] then m else WithOnes(m, keys[..|keys| - 1])[keys[|keys| - 1] := 1]
  }

  lemma {:induction false} OnesAdd(m: map<string, int>, keys: seq<string>)
    requires Positive(m)
    requires forall i | 0 <= i < |keys| :: keys[i] !in m
    requires forall i, j | 0 <= i < j < |keys| :: keys[i] != keys[j]
    ensures Positive(WithOnes(m, keys)) && |WithOnes(m, keys)| == |m| + |keys|
    ensures forall k | k in WithOnes(m, keys) :: k in m || k in keys
    ensures SumMap(WithOnes(m, keys), Count()) == SumMap(m, Count()) + |keys| as real
    ensures SumMap(WithOnes(m, keys), CountSquared()) == SumMap(m, CountSquared()) + |keys| as real
  {
    if keys == [] {
    } else {
      var front, last := keys[..|keys| - 1], keys[|keys| - 1];
      OnesAdd(m, front);
      assert last !in WithOnes(m, front);
      assert Square(1 as real) == 1.0;
      hide Square;
      SumBoth(WithOnes(m, front), last, 1);
    }
  }

  lemma SixSums()
    ensures |SixKeys()| == 6 && Positive(SixKeys())
    ensures SumMap(SixKeys(), Count()) == 105.0
    ensures SumMap(SixKeys(), CountSquared()) == 10005.0
  {
    var m: map<string, int> := map[]["a" := 100];
    SumBoth(map[], "a", 100);
    assert m == map["a" := 100];
    assert Square(100.0) == 10000.0;
    var keys := ["b", "c", "d", "e", "f"];
    OnesAdd(map["a" := 100], keys);
  }

  lemma SumBoth(m: map<string, int>, k: string, c: int)
    requires k !in m
    ensures SumMap(m[k := c], Count()) == c as real + SumMap(m, Count())
    ensures SumMap(m[k := c], CountSquared()) == Square(c as real) + SumMap(m, CountSquared())
    ensures |m[k := c]| == |m| + 1
  {
    SumUpdate(m, Count(), k, c);
    SumUpdate(m, CountSquared(), k, c);
    assert m[k := c] - {k} == m;
    SizeRemove(m[k := c], k);
  }

  // ----- what the score does not depend on -----

  ghost predicate Injective(rename: string -> string) {
    forall x, y :: rename(x) == rename(y) ==> x == y
  }

  function Renamed(accesses: seq<CacheAccess>, rename: string -> string): seq<string> {
    if accesses == [] then []
    else Renamed(accesses[..|accesses| - 1], rename) + [rename(accesses[|accesses| - 1].key)]
  }

  lemma {:induction false} RenamedKeys(accesses: seq<CacheAccess>, rename: string -> string, key: string)
    requires Injective(rename)
    ensures multiset(Renamed(accesses, rename))[rename(key)] == multiset(Keys(accesses))[key]
  {
    if accesses == [] {
    } else {
      RenamedKeys(accesses[..|accesses| - 1], rename, key);
    }
  }

  lemma {:induction false} RenamedOrigin(accesses: seq<CacheAccess>, rename: string -> string, name: string)
    returns (key: string)
    requires multiset(Renamed(accesses, rename))[name] > 0
    ensures multiset(Keys(accesses))[key] > 0 && name == rename(key)
  {
    key := accesses[|accesses| - 1].key;
    if rename(key) != name {
      key := RenamedOrigin(accesses[..|accesses| - 1], rename, name);
    }
  }

  lemma {:induction false} FrequencyForward(a: seq<CacheAccess>, b: seq<CacheAccess>, rename: string -> string, k: string)
    requires Injective(rename) && multiset(Keys(b)) == multiset(Renamed(a, rename))
    requires k in Frequencies(a)
    ensures rename(k) in Frequencies(b) && Frequencies(b)[rename(k)] == Frequencies(a)[k]
  {
    FrequencyAt(a, k);
    FrequencyAt(b, rename(k));
    RenamedKeys(a, rename, k);
  }

  lemma {:induction false} FrequencyBackward(a: seq<CacheAccess>, b: seq<CacheAccess>, rename: string -> string,
      name: string)
    returns (k: string)
    requires multiset(Keys(b)) == multiset(Renamed(a, rename))
    requires name in Frequencies(b)
    ensures k in Frequencies(a) && name == rename(k)
  {
    FrequencyAt(b, name);
    k := RenamedOrigin(a, rename, name);
    FrequencyAt(a, k);
  }

  lemma {:induction false} FrequenciesRenamed(a: seq<CacheAccess>, b: seq<CacheAccess>, rename: string -> string)
    requires Injective(rename) && multiset(Keys(b)) == multiset(Renamed(a, rename))
    ensures Frequencies(b).Keys == set k | k in Frequencies(a) :: rename(k)
    ensures forall k | k in Frequencies(a) :: Frequencies(b)[rename(k)] == Frequencies(a)[k]
  {
    var m, n := Frequencies(a), Frequencies(b);
    var image := set k | k in m :: rename(k);
    forall k | k in m
      ensures rename(k) in n && n[rename(k)] == m[k]
    {
      FrequencyForward(a, b, rename, k);
    }
    forall name | name in n.Keys
      ensures name in image
    {
      var k := FrequencyBackward(a, b, rename, name);
    }
    assert image <= n.Keys;
  }

  /** Reordering the accesses and renaming the keys one to one leaves the score unchanged; times and hits are irrelevant. */
  lemma SkewInvariant(sqrt: real -> real, a: seq<CacheAccess>, b: seq<CacheAccess>,
      rename: string -> string)
    requires Injective(rename)
    requires multiset(Keys(b)) == multiset(Renamed(a, rename))
    ensures SkewOf(sqrt, a) == SkewOf(sqrt, b)
  {
    var m, n := Frequencies(a), Frequencies(b);
    FrequenciesRenamed(a, b, rename);
    SumRename(m, n, Count(), rename);
    assert |a| == |b| by {
      FrequenciesCount(a);
      FrequenciesCount(b);
    }
    if |m| >= 2 {
      SumRename(m, n, Deviation(|a| as real / |m| as real), rename);
    }
  }
}
