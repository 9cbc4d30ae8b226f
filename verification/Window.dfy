/** A bounded log: append at the end, drop the oldest entry when the capacity is exceeded. */
module Window {

  function Push<T>(log: seq<T>, capacity: nat, x: T): seq<T> {
    var grown := log + [x];
    if |grown| > capacity then grown[1..] else grown
  }

  /** The last n elements of s, or all of s when it is shorter. */
  function Last<T>(n: nat, s: seq<T>): (r: seq<T>)
    ensures |r| == if |s| <= n then |s| else n
    ensures forall i | 0 <= i < |r| :: r[i] == s[|s| - |r| + i]
  {
    if |s| <= n then s else s[|s| - n..]
  }

  lemma PushKeepsLast<T>(s: seq<T>, capacity: nat, x: T)
    ensures Push(Last(capacity, s), capacity, x) == Last(capacity, s + [x])
  {
  }

  // ----- runs of appends and resets -----

  datatype Op<T> = Record(x: T) | Clear

  /** The log after a run of operations, starting empty. */
  function Run<T>(ops: seq<Op<T>>, capacity: nat): seq<T> {
    if ops == [] then []
    else
      var log := Run(ops[..|ops| - 1], capacity);
      match ops[|ops| - 1]
      case Record(x) => Push(log, capacity, x)
      case Clear => []
  }

  /** Everything recorded after the last reset of the run. */
  function SinceClear<T>(ops: seq<Op<T>>): seq<T> {
    if ops == [] then []
    else
      match ops[|ops| - 1]
      case Record(x) => SinceClear(ops[..|ops| - 1]) + [x]
      case Clear => []
  }

  /** After every run the log holds exactly the last `capacity` records since the last reset, in order. */
  lemma {:induction false} RunIsLast<T>(ops: seq<Op<T>>, capacity: nat)
    ensures Run(ops, capacity) == Last(capacity, SinceClear(ops))
  {
    if ops == [] {
    } else {
      var front := ops[..|ops| - 1];
      RunIsLast(front, capacity);
      if ops[|ops| - 1].Record? {
        PushKeepsLast(SinceClear(front), capacity, ops[|ops| - 1].x);
      }
    }
  }
}
