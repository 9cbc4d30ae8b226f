/** The sliding-window detector of workload shifts (pkg/adaptive/pattern.go). */
module Pattern {
  import opened Arith
  import opened CacheTypes
  import opened Frequency
  import opened Sums
  import opened Window

  datatype WorkloadPattern = WorkloadPattern(
    recencyScore: real, frequencyScore: real, uniqueKeyRatio: real, totalAccesses: nat, uniqueKeys: nat, hitRate: real)

  datatype PatternShift = PatternShift(
    detected: bool, temporalShift: real, frequencyShift: real,
    recent: Option<WorkloadPattern>, current: Option<WorkloadPattern>)

  const SHIFT_THRESHOLD: real := 0.1

  // ----- specification -----

  function Hits(accesses: seq<CacheAccess>): nat {
    if accesses == [] then 0
    else Hits(accesses[..|accesses| - 1]) + if accesses[|accesses| - 1].isHit then 1 else 0
  }

  function Abs(x: real): real {
    if x < 0.0 then -x else x
  }

  /** Hit rate over the last quarter; zero below four accesses. */
  function Recency(accesses: seq<CacheAccess>): real {
    var quarter := |accesses| / 4;
    if quarter == 0 then 0.0 else Hits(Last(quarter, accesses)) as real / quarter as real
  }

  ghost function PatternOf(sqrt: real -> real, accesses: seq<CacheAccess>): WorkloadPattern {
    var n := |accesses|;
    if n == 0 then WorkloadPattern(0.0, 0.0, 0.0, 0, 0, 0.0)
    else
      var keys := |Frequencies(accesses)|;
      WorkloadPattern(Recency(accesses), SkewOf(sqrt, accesses), keys as real / n as real, n, keys,
          Hits(accesses) as real / n as real)
  }

  /** Comparison of the older half of a full window with the newer half. */
  ghost function ShiftOf(sqrt: real -> real, log: seq<CacheAccess>, window: int): PatternShift {
    if |log| < window then PatternShift(false, 0.0, 0.0, None, None)
    else
      var mid := |log| / 2;
      var recent, current := PatternOf(sqrt, log[..mid]), PatternOf(sqrt, log[mid..]);
      var temporal := Abs(recent.recencyScore - current.recencyScore);
      var frequency := Abs(recent.frequencyScore - current.frequencyScore);
      PatternShift(temporal > SHIFT_THRESHOLD || frequency > SHIFT_THRESHOLD, temporal, frequency, Some(recent),
          Some(current))
  }

  // ----- the detector -----

  class PatternDetector {
    var accessLog: seq<CacheAccess>
    const windowSize: nat
    /** math.Sqrt */
    const sqrt: real -> real
    /** Everything recorded since construction or the last Clear. */
    ghost var recorded: seq<CacheAccess>

    ghost predicate Valid()
      reads this
    {
      windowSize > 0 && accessLog == Last(windowSize, recorded)
    }

    constructor (size: int, sqrt: real -> real)
      ensures Valid() && recorded == [] && this.sqrt == sqrt
      ensures windowSize == if size <= 0 then 1000 else size
    {
      windowSize := if size <= 0 then 1000 else size;
      this.sqrt := sqrt;
      accessLog := [];
      recorded := [];
    }

    method RecordAccess(key: string, isHit: bool, now: Time)
      requires Valid()
      modifies this
      ensures Valid() && recorded == old(recorded) + [CacheAccess(key, now, isHit)]
    {
      var access := CacheAccess(key, now, isHit);
      PushKeepsLast(recorded, windowSize, access);
      accessLog := accessLog + [access];
      recorded := recorded + [access];
      if |accessLog| > windowSize {
        accessLog := accessLog[1..];
      }
    }

    method Clear()
      requires Valid()
      modifies this
      ensures Valid() && recorded == []
    {
      accessLog := [];
      recorded := [];
    }

    method DetectShift() returns (shift: PatternShift)
      requires Valid()
      ensures shift == ShiftOf(sqrt, accessLog, windowSize)
      ensures shift.detected ==> |recorded| >= windowSize
    {
      if |accessLog| < windowSize {
        return PatternShift(false, 0.0, 0.0, None, None);
      }
      var midpoint := |accessLog| / 2;
      var recent := ExtractPattern(accessLog[..midpoint]);
      var current := ExtractPattern(accessLog[midpoint..]);
      var temporalShift := Abs(recent.recencyScore - current.recencyScore);
      var frequencyShift := Abs(recent.frequencyScore - current.frequencyScore);
      var detected := temporalShift > SHIFT_THRESHOLD || frequencyShift > SHIFT_THRESHOLD;
      return PatternShift(detected, temporalShift, frequencyShift, Some(recent), Some(current));
    }

    method ExtractPattern(accesses: seq<CacheAccess>) returns (pattern: WorkloadPattern)
      ensures pattern == PatternOf(sqrt, accesses)
    {
      if |accesses| == 0 {
        return WorkloadPattern(0.0, 0.0, 0.0, 0, 0, 0.0);
      }
      var recencyScore := CalculateRecencyScore(accesses);
      var frequencyMap: map<string, int> := map[];
      var hitCount := 0;
      for i := 0 to |accesses|
        invariant frequencyMap == Frequencies(accesses[..i]) && hitCount == Hits(accesses[..i])
      {
        assert accesses[..i + 1][..i] == accesses[..i];
        var key := accesses[i].key;
        frequencyMap := frequencyMap[key := (if key in frequencyMap then frequencyMap[key] else 0) + 1];
        if accesses[i].isHit {
          hitCount := hitCount + 1;
        }
      }
      assert accesses[..|accesses|] == accesses;
      var frequencyScore := CalculateFrequencyScore(frequencyMap, |accesses|);
      var n := |accesses| as real;
      return WorkloadPattern(recencyScore, frequencyScore, |frequencyMap| as real / n, |accesses|, |frequencyMap|,
          hitCount as real / n);
    }

    method CalculateRecencyScore(accesses: seq<CacheAccess>) returns (score: real)
      ensures score == Recency(accesses)
    {
      if |accesses| < 4 {
        return 0.0;
      }
      var recentSize := |accesses| / 4;
      var recentAccesses := accesses[|accesses| - recentSize..];
      var recentHits := 0;
      for i := 0 to |recentAccesses|
        invariant recentHits == Hits(recentAccesses[..i])
      {
        assert recentAccesses[..i + 1][..i] == recentAccesses[..i];
        if recentAccesses[i].isHit {
          recentHits := recentHits + 1;
        }
      }
      assert recentAccesses[..|recentAccesses|] == recentAccesses == Last(recentSize, accesses);
      return recentHits as real / |recentAccesses| as real;
    }

    /** Visits the counts in an arbitrary order; the result does not depend on it. */
    method CalculateFrequencyScore(frequencyMap: map<string, int>, totalAccesses: nat) returns (score: real)
      requires totalAccesses > 0
      ensures score == Skew(sqrt, frequencyMap, totalAccesses)
    {
      if |frequencyMap| < 2 {
        return 0.0;
      }
      var mean := totalAccesses as real / |frequencyMap| as real;
      var variance := SumOfDeviations(frequencyMap, mean);
      variance := variance / |frequencyMap| as real;
      var stddev := sqrt(variance);
      score := HalfVariation(stddev, |frequencyMap| as real, totalAccesses as real);
    }

    method SumOfDeviations(frequencyMap: map<string, int>, mean: real) returns (sum: real)
      ensures sum == SumMap(frequencyMap, Deviation(mean))
    {
      hide SumMap, Deviation, Square;
      sum := 0.0;
      var remaining := frequencyMap;
      while remaining != map[]
        invariant sum + SumMap(remaining, Deviation(mean)) == SumMap(frequencyMap, Deviation(mean))
        decreases |remaining|
      {
        var key :| key in remaining;
        TakeDeviation(remaining, mean, key);
        var diff := remaining[key] as real - mean;
        sum := sum + Square(diff);
        remaining := remaining - {key};
      }
      NothingLeft(mean);
    }
  }

  lemma TakeDeviation(m: map<string, int>, mean: real, key: string)
    requires key in m
    ensures SumMap(m, Deviation(mean)) == Square(m[key] as real - mean) + SumMap(m - {key}, Deviation(mean))
    ensures |m - {key}| < |m|
  {
    SumRemove(m, Deviation(mean), key);
    SizeRemove(m, key);
  }

  lemma NothingLeft(mean: real)
    ensures SumMap<string>(map[], Deviation(mean)) == 0.0
  {
  }

  // ----- what detection depends on -----

  lemma {:induction false} HitsBounded(accesses: seq<CacheAccess>)
    ensures Hits(accesses) <= |accesses|
  {
    if accesses == [] {
    } else {
      HitsBounded(accesses[..|accesses| - 1]);
    }
  }

  /** Both scores of every pattern lie in the unit interval. */
  lemma ScoresInUnit(sqrt: real -> real, accesses: seq<CacheAccess>)
    requires IsSqrt(sqrt)
    ensures 0.0 <= PatternOf(sqrt, accesses).recencyScore <= 1.0
    ensures 0.0 <= PatternOf(sqrt, accesses).frequencyScore <= 1.0
  {
    var quarter := |accesses| / 4;
    if quarter > 0 {
      HitsBounded(Last(quarter, accesses));
      RatioInUnit(Hits(Last(quarter, accesses)) as real, quarter as real);
    }
    FrequenciesCount(accesses);
    if |Frequencies(accesses)| >= 2 {
      SkewValue(sqrt, Frequencies(accesses), |accesses|);
    }
  }

  // ----- what is detected -----

  /** Positions of the hits among the last `size` accesses. */
  ghost function HitsAmongLast(accesses: seq<CacheAccess>, size: nat): set<int>
    requires size <= |accesses|
  {
    set i | |accesses| - size <= i < |accesses| && accesses[i].isHit
  }

  lemma OneMoreHit(accesses: seq<CacheAccess>, size: nat)
    requires 0 < size <= |accesses|
    ensures var front, last := accesses[..|accesses| - 1], accesses[|accesses| - 1];
            |HitsAmongLast(accesses, size)| == |HitsAmongLast(front, size - 1)| + if last.isHit then 1 else 0
  {
    var n := |accesses|;
    var front := accesses[..n - 1];
    if accesses[n - 1].isHit {
      assert HitsAmongLast(accesses, size) == HitsAmongLast(front, size - 1) + {n - 1};
    } else {
      assert HitsAmongLast(accesses, size) == HitsAmongLast(front, size - 1);
    }
  }

  lemma {:induction false} HitsCounted(accesses: seq<CacheAccess>, start: nat)
    requires start <= |accesses|
    ensures Hits(accesses[start..]) == |HitsAmongLast(accesses, |accesses| - start)|
  {
    if start == |accesses| {
      assert HitsAmongLast(accesses, 0) == {};
    } else {
      hide HitsAmongLast;
      var n := |accesses|;
      var front := accesses[..n - 1];
      HitsCounted(front, start);
      OneMoreHit(accesses, n - start);
      assert accesses[start..][..n - start - 1] == front[start..];
    }
  }

  lemma NoHits()
    ensures Hits([]) == 0
  {
  }

  /** The recency score times the size of the last quarter is the number of hits in it. */
  lemma {:induction false} RecencyMeans(accesses: seq<CacheAccess>)
    ensures |accesses| < 4 ==> Recency(accesses) == 0.0
    ensures var quarter := |accesses| / 4;
            Mul(Recency(accesses), quarter as real) == |HitsAmongLast(accesses, quarter)| as real
  {
    var n := |accesses|;
    var quarter := n / 4;
    HitsCounted(accesses, n - quarter);
    hide HitsAmongLast, Hits;
    if quarter > 0 {
      assert Last(quarter, accesses) == accesses[n - quarter..];
      Share(Hits(Last(quarter, accesses)) as real, quarter as real);
      hide Mul;
    } else {
      assert Mul(0.0, 0.0) == 0.0;
      assert accesses[n..] == [];
      NoHits();
    }
  }

  /** The skew of the accesses is s: its square is half the coefficient of variation squared, up to the cap. */
  ghost predicate HasSkew(accesses: seq<CacheAccess>, s: real) {
    var m, n := Frequencies(accesses), |accesses| as real;
    && s >= 0.0
    && if |m| < 2 then s == 0.0
       else Mul(Square(2.0 * s), Square(n)) == Min(Imbalance(m, |accesses|), 4.0 * Square(n))
  }

  lemma SquareInjective(x: real, y: real)
    requires x >= 0.0 && y >= 0.0 && Square(x) == Square(y)
    ensures x == y
  {
    assert Mul(x - y, x + y) == Square(x) - Square(y);
    assert Mul(y - x, x + y) == Square(y) - Square(x);
    hide Mul, Square;
    if x < y {
      ProductSign(y - x, x + y);
    } else if x > y {
      ProductSign(x - y, x + y);
    }
  }

  /** Accesses have one skew, and the score is it. */
  lemma {:induction false} SkewMeans(sqrt: real -> real, accesses: seq<CacheAccess>, s: real)
    requires IsSqrt(sqrt)
    ensures HasSkew(accesses, s) <==> s == SkewOf(sqrt, accesses)
  {
    var m, n := Frequencies(accesses), |accesses| as real;
    FrequenciesCount(accesses);
    if |m| >= 2 {
      SquaresBelowSquare(m);
      SkewValue(sqrt, m, |accesses|);
      SquareSign(n);
      if HasSkew(accesses, s) {
        SameScale(Square(2.0 * s), Square(2.0 * SkewOf(sqrt, accesses)), Square(n));
        SquareInjective(2.0 * s, 2.0 * SkewOf(sqrt, accesses));
      }
    }
  }

  lemma SameScale(x: real, y: real, z: real)
    requires z > 0.0 && Mul(x, z) == Mul(y, z)
    ensures x == y
  {
    hide Mul;
    ScaleOrder(x, y, z);
    ScaleOrder(y, x, z);
  }

  predicate FarApart(x: real, y: real) {
    x - y > 0.1 || y - x > 0.1
  }

  /**
    What is detected, exactly. Over a full window, with halves of r and c accesses: the hit rates x and y of their last
    quarters, or their skews s and t, are more than 0.1 apart. A half of fewer than four accesses has hit rate zero.
   */
  lemma {:induction false} DetectsExactly(sqrt: real -> real, older: seq<CacheAccess>, newer: seq<CacheAccess>, window: int,
                                          x: real, y: real, s: real, t: real)
    requires IsSqrt(sqrt) && |older| <= |newer| <= |older| + 1
    requires Mul(x, (|older| / 4) as real) == |HitsAmongLast(older, |older| / 4)| as real && (|older| < 4 ==> x == 0.0)
    requires Mul(y, (|newer| / 4) as real) == |HitsAmongLast(newer, |newer| / 4)| as real && (|newer| < 4 ==> y == 0.0)
    requires HasSkew(older, s) && HasSkew(newer, t)
    ensures ShiftOf(sqrt, older + newer, window).detected <==>
              |older| + |newer| >= window && (FarApart(x, y) || FarApart(s, t))
  {
    var log := older + newer;
    assert |log| / 2 == |older| && log[..|older|] == older && log[|older|..] == newer;
    RateIsRecency(older, x);
    RateIsRecency(newer, y);
    SkewMeans(sqrt, older, s);
    SkewMeans(sqrt, newer, t);
    hide HasSkew, Recency, HitsAmongLast, SkewOf;
    PatternScores(sqrt, older);
    PatternScores(sqrt, newer);
  }

  lemma {:induction false} RateIsRecency(accesses: seq<CacheAccess>, x: real)
    requires Mul(x, (|accesses| / 4) as real) == |HitsAmongLast(accesses, |accesses| / 4)| as real
    requires |accesses| < 4 ==> x == 0.0
    ensures x == Recency(accesses)
  {
    RecencyMeans(accesses);
    if |accesses| >= 4 {
      SameScale(x, Recency(accesses), (|accesses| / 4) as real);
    }
  }

  lemma PatternScores(sqrt: real -> real, accesses: seq<CacheAccess>)
    ensures PatternOf(sqrt, accesses).recencyScore == Recency(accesses)
    ensures PatternOf(sqrt, accesses).frequencyScore == SkewOf(sqrt, accesses)
  {
  }

  /** With halves of equal size: the numbers of late hits differ by more than a tenth of a quarter. */
  lemma {:induction false} LateHitsDetect(sqrt: real -> real, older: seq<CacheAccess>, newer: seq<CacheAccess>, window: int)
    requires IsSqrt(sqrt) && |older| == |newer| >= 4 && |older| + |newer| >= window
    requires var q := |older| / 4;
             FarApart(|HitsAmongLast(older, q)| as real / q as real, |HitsAmongLast(newer, q)| as real / q as real)
    ensures ShiftOf(sqrt, older + newer, window).detected
  {
    var q := |older| / 4;
    var x, y := |HitsAmongLast(older, q)| as real / q as real, |HitsAmongLast(newer, q)| as real / q as real;
    assert Mul(x, q as real) == |HitsAmongLast(older, q)| as real;
    assert Mul(y, q as real) == |HitsAmongLast(newer, q)| as real;
    SkewMeans(sqrt, older, SkewOf(sqrt, older));
    SkewMeans(sqrt, newer, SkewOf(sqrt, newer));
    hide HasSkew, HitsAmongLast, Mul;
    DetectsExactly(sqrt, older, newer, window, x, y, SkewOf(sqrt, older), SkewOf(sqrt, newer));
  }

  /** What a pattern tells besides its scores: how many keys there are, and how many of the accesses hit. */
  lemma {:induction false} PatternMeans(sqrt: real -> real, accesses: seq<CacheAccess>)
    requires accesses != []
    ensures var p := PatternOf(sqrt, accesses);
            && p.totalAccesses == |accesses|
            && p.uniqueKeys == |set i | 0 <= i < |accesses| :: accesses[i].key|
            && Mul(p.uniqueKeyRatio, |accesses| as real) == p.uniqueKeys as real
            && Mul(p.hitRate, |accesses| as real) == |HitsAmongLast(accesses, |accesses|)| as real
  {
    var n := |accesses|;
    var keys := set i | 0 <= i < n :: accesses[i].key;
    HitsCounted(accesses, 0);
    assert accesses[0..] == accesses;
    KeysOf(accesses);
    assert |Frequencies(accesses)| == |Frequencies(accesses).Keys|;
    Share(|Frequencies(accesses)| as real, n as real);
    Share(Hits(accesses) as real, n as real);
  }

  lemma Share(x: real, n: real)
    requires n > 0.0
    ensures Mul(x / n, n) == x
  {
  }

  lemma {:induction false} KeysOf(accesses: seq<CacheAccess>)
    ensures Frequencies(accesses).Keys == set i | 0 <= i < |accesses| :: accesses[i].key
  {
    if accesses == [] {
    } else {
      var n := |accesses|;
      var front := accesses[..n - 1];
      KeysOf(front);
      var keys := set i | 0 <= i < n :: accesses[i].key;
      assert keys == (set i | 0 <= i < n - 1 :: front[i].key) + {accesses[n - 1].key} by {
        forall k | k in keys
          ensures k in (set i | 0 <= i < n - 1 :: front[i].key) + {accesses[n - 1].key}
        {
          var i :| 0 <= i < n && accesses[i].key == k;
          if i < n - 1 {
            assert front[i].key == k;
          }
        }
        forall k | k in (set i | 0 <= i < n - 1 :: front[i].key)
          ensures k in keys
        {
          var i :| 0 <= i < n - 1 && front[i].key == k;
          assert accesses[i].key == k;
        }
        assert accesses[n - 1].key in keys;
      }
    }
  }

  lemma ShiftNeedsWindow(sqrt: real -> real, log: seq<CacheAccess>, window: int)
    ensures ShiftOf(sqrt, log, window).detected ==> |log| >= window
  {
  }

  /** After any run of accesses and resets, nothing is detected until a full window was recorded since the last reset. */
  lemma NoShiftBeforeFullWindow(sqrt: real -> real, ops: seq<Op<CacheAccess>>, window: nat)
    requires |SinceClear(ops)| < window
    ensures !ShiftOf(sqrt, Run(ops, window), window).detected
  {
    RunIsLast(ops, window);
  }

  /**
    A workload that repeats itself raises no alarm: the newer half may reorder the accesses of the older half and
    use other keys in their place, as long as its last quarter has as many hits.
   */
  lemma RepeatedWorkloadIsStable(sqrt: real -> real, a: seq<CacheAccess>, b: seq<CacheAccess>,
      rename: string -> string, window: int)
    requires Injective(rename) && multiset(Keys(b)) == multiset(Renamed(a, rename))
    requires Hits(Last(|a| / 4, a)) == Hits(Last(|b| / 4, b))
    ensures !ShiftOf(sqrt, a + b, window).detected
  {
    SkewInvariant(sqrt, a, b, rename);
    assert |a| == |b| by {
      KeysLength(b);
      RenamedLength(a, rename);
      assert |multiset(Keys(b))| == |multiset(Renamed(a, rename))|;
    }
    if |a| > 0 {
      SamePatterns(sqrt, a, b);
    }
    Halves(a, b);
  }

  lemma SamePatterns(sqrt: real -> real, a: seq<CacheAccess>, b: seq<CacheAccess>)
    requires |a| == |b| && SkewOf(sqrt, a) == SkewOf(sqrt, b) && Hits(Last(|a| / 4, a)) == Hits(Last(|b| / 4, b))
    ensures PatternOf(sqrt, a).recencyScore == PatternOf(sqrt, b).recencyScore
    ensures PatternOf(sqrt, a).frequencyScore == PatternOf(sqrt, b).frequencyScore
  {
  }

  lemma Halves<T>(a: seq<T>, b: seq<T>)
    requires |a| == |b|
    ensures |a + b| / 2 == |a| && (a + b)[..|a|] == a && (a + b)[|a|..] == b
  {
  }

  lemma {:induction false} KeysLength(accesses: seq<CacheAccess>)
    ensures |Keys(accesses)| == |accesses|
  {
    if accesses == [] {
    } else {
      KeysLength(accesses[..|accesses| - 1]);
    }
  }

  lemma {:induction false} RenamedLength(accesses: seq<CacheAccess>, rename: string -> string)
    ensures |Renamed(accesses, rename)| == |accesses|
  {
    if accesses == [] {
    } else {
      RenamedLength(accesses[..|accesses| - 1], rename);
    }
  }
}
