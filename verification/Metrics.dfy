/** Per-policy measurements and the snapshot history (pkg/adaptive/metrics.go). */
module Metrics {
  import opened CacheTypes
  import opened Frequency
  import opened Server
  import opened Sums
  import opened Window

  /** The value of a PolicyMetrics object. */
  datatype Entry = Entry(name: Policy, missRatio: real, hitRatio: real, lastUpdated: Time, sampleCount: nat)

  datatype Measurement = Measurement(policy: Policy, missRatio: real, at: Time)

  const MAX_HISTORY: nat := 10

  // ----- specification: entries as a replay of all measurements -----

  function Store(entries: map<Policy, Entry>, x: Measurement): map<Policy, Entry> {
    var before := if x.policy in entries then entries[x.policy].sampleCount else 0;
    entries[x.policy := Entry(x.policy, x.missRatio, 1.0 - x.missRatio, x.at, before + 1)]
  }

  function Replay(measured: seq<Measurement>): map<Policy, Entry> {
    if measured == [] then map[]
    else Store(Replay(measured[..|measured| - 1]), measured[|measured| - 1])
  }

  lemma StoredMeasurement(measured: seq<Measurement>, x: Measurement)
    ensures Replay(measured + [x]) == Store(Replay(measured), x)
  {
    assert (measured + [x])[..|measured|] == measured;
  }

  function SnapshotOf(status: PaperStatus, now: Time): MetricsSnapshot {
    MetricsSnapshot(now, status.policy, status.missRatio, status.maxSize,
                    status.usedSize, status.numObjects, status.totalGets, status.totalSets)
  }

  ghost function Of(p: Policy, measured: seq<Measurement>): seq<Measurement> {
    if measured == [] then []
    else
      var front, x := Of(p, measured[..|measured| - 1]), measured[|measured| - 1];
      if x.policy == p then front + [x] else front
  }

  /** Every entry shows the last measurement of its policy and counts them all; unmeasured policies have no entry. */
  lemma {:induction false} ReplayEntries(measured: seq<Measurement>, p: Policy)
    ensures p in Replay(measured) <==> Of(p, measured) != []
    ensures p in Replay(measured) ==>
              var own := Of(p, measured);
              var last := own[|own| - 1];
              Replay(measured)[p] == Entry(p, last.missRatio, 1.0 - last.missRatio, last.at, |own|)
  {
    if measured == [] {
    } else {
      ReplayEntries(measured[..|measured| - 1], p);
    }
  }

  function SampleCounts(entries: map<Policy, Entry>): map<Policy, int> {
    map p | p in entries :: entries[p].sampleCount
  }

  /** Conservation: the sample counts of all policies add up to the number of measurements. */
  lemma {:induction false} SamplesConserved(measured: seq<Measurement>)
    ensures SumMap(SampleCounts(Replay(measured)), Count()) == |measured| as real
  {
    if measured == [] {
      assert SampleCounts(Replay(measured)) == map[];
    } else {
      var front, x := measured[..|measured| - 1], measured[|measured| - 1];
      var entries := Replay(front);
      SamplesConserved(front);
      var n := Store(entries, x)[x.policy].sampleCount;
      assert SampleCounts(Store(entries, x)) == SampleCounts(entries)[x.policy := n];
      SumUpdate(SampleCounts(entries), Count(), x.policy, n);
    }
  }

  // ----- the mutable objects -----

  class PolicyMetrics {
    const name: Policy
    var missRatio: real
    var hitRatio: real
    var lastUpdated: Time
    var sampleCount: nat

    function Value(): Entry
      reads this
    {
      Entry(name, missRatio, hitRatio, lastUpdated, sampleCount)
    }

    constructor (e: Entry)
      ensures Value() == e
    {
      name, missRatio, hitRatio, lastUpdated, sampleCount := e.name, e.missRatio, e.hitRatio, e.lastUpdated, e.sampleCount;
    }

    method Update(missRatio: real, now: Time)
      modifies this
      ensures Value() == Entry(name, missRatio, 1.0 - missRatio, now, old(sampleCount) + 1)
    {
      this.missRatio, hitRatio, lastUpdated, sampleCount := missRatio, 1.0 - missRatio, now, sampleCount + 1;
    }
  }

  ghost function ValuesOf(objects: map<Policy, PolicyMetrics>): map<Policy, Entry>
    reads objects.Values
  {
    map p | p in objects :: objects[p].Value()
  }

  /** The view handed to callers; it owns copies of the metrics objects. */
  class AggregatedMetrics {
    const currentPolicy: Policy
    const currentPolicyMissRatio: real
    const allPoliciesMetrics: map<Policy, PolicyMetrics>
    const cacheSize: nat
    const history: seq<MetricsSnapshot>
    const isComplete: bool

    constructor (copies: map<Policy, PolicyMetrics>, history: seq<MetricsSnapshot>, isComplete: bool)
      ensures allPoliciesMetrics == copies && this.history == history && this.isComplete == isComplete
      ensures history != [] ==>
                var latest := history[|history| - 1];
                currentPolicy == latest.currentPolicy && currentPolicyMissRatio == latest.missRatio
                    && cacheSize == latest.cacheSize
    {
      allPoliciesMetrics, this.history, this.isComplete := copies, history, isComplete;
      var known := history != [];
      currentPolicy := if known then history[|history| - 1].currentPolicy else "";
      currentPolicyMissRatio := if known then history[|history| - 1].missRatio else 0.0;
      cacheSize := if known then history[|history| - 1].cacheSize else 0;
    }
  }

  /** While one policy is profiled: whether the server accepts the command, and its figures afterwards. */
  datatype ProfileReply = ProfileReply(accepted: bool, reading: Option<Reading>, at: Time)

  /** What profiling the first k policies adds to the measurements: the accepted ones with a status. */
  ghost function Profiled(policies: seq<Policy>, replies: seq<ProfileReply>, k: nat): seq<Measurement>
    requires k <= |policies| == |replies|
  {
    if k == 0 then []
    else
      var front, r := Profiled(policies, replies, k - 1), replies[k - 1];
      if r.accepted
          && r.reading.Some? then front + [Measurement(policies[k - 1], r.reading.value.missRatio, r.at)] else front
  }

  ghost function LastAccepted(initial: Policy, policies: seq<Policy>, replies: seq<ProfileReply>, k: nat): Policy
    requires k <= |policies| == |replies|
  {
    if k == 0 then initial
    else if replies[k - 1].accepted then policies[k - 1]
    else LastAccepted(initial, policies, replies, k - 1)
  }

  // ----- what profiling measures -----

  /** Positions, among the first k, at which p is configured, the command for it accepted and a status given. */
  ghost function Profilings(policies: seq<Policy>, replies: seq<ProfileReply>, k: nat, p: Policy): set<int>
    requires k <= |policies| == |replies|
  {
    set i | 0 <= i < k && policies[i] == p && replies[i].accepted && replies[i].reading.Some?
  }

  ghost predicate IsLastOf(positions: set<int>, i: int) {
    i in positions && forall j | j in positions :: j <= i
  }

  /** The entry of p after profiling the first k policies, in terms of the replies alone. */
  ghost predicate ProfiledEntry(before: map<Policy, Entry>, after: map<Policy, Entry>,
                                policies: seq<Policy>, replies: seq<ProfileReply>, k: nat, p: Policy)
    requires k <= |policies| == |replies|
  {
    var positions := Profilings(policies, replies, k, p);
    && (p in after <==> p in before || positions != {})
    && (p in after ==> after[p].sampleCount == (if p in before then before[p].sampleCount else 0) + |positions|)
    && (p in before && positions == {} ==> after[p] == before[p])
    && forall i | IsLastOf(positions, i) ::
         after[p].missRatio == replies[i].reading.value.missRatio && after[p].lastUpdated == replies[i].at
  }

  lemma ProfileOwn(before: map<Policy, Entry>, mid: map<Policy, Entry>, policies: seq<Policy>,
      replies: seq<ProfileReply>, k: nat)
    requires k < |policies| == |replies| && replies[k].accepted && replies[k].reading.Some?
    requires ProfiledEntry(before, mid, policies, replies, k, policies[k])
    ensures var x := Measurement(policies[k], replies[k].reading.value.missRatio, replies[k].at);
            ProfiledEntry(before, Store(mid, x), policies, replies, k + 1, policies[k])
  {
    var p := policies[k];
    var positions := Profilings(policies, replies, k, p);
    assert Profilings(policies, replies, k + 1, p) == positions + {k};
    assert IsLastOf(positions + {k}, k) && k !in positions;
    assert forall i | IsLastOf(positions + {k}, i) :: i == k;
  }

  lemma ProfileOther(before: map<Policy, Entry>, mid: map<Policy, Entry>, after: map<Policy, Entry>,
                     policies: seq<Policy>, replies: seq<ProfileReply>, k: nat, p: Policy)
    requires k < |policies| == |replies| && ProfiledEntry(before, mid, policies, replies, k, p)
    requires !(policies[k] == p && replies[k].accepted && replies[k].reading.Some?)
    requires (p in after <==> p in mid) && (p in mid ==> after[p] == mid[p])
    ensures ProfiledEntry(before, after, policies, replies, k + 1, p)
  {
    assert Profilings(policies, replies, k + 1, p) == Profilings(policies, replies, k, p);
  }

  lemma ProfileNone(entries: map<Policy, Entry>, policies: seq<Policy>, replies: seq<ProfileReply>, p: Policy)
    requires |policies| == |replies|
    ensures ProfiledEntry(entries, entries, policies, replies, 0, p)
  {
    assert Profilings(policies, replies, 0, p) == {};
  }

  lemma {:induction false} ReplayProfiled(before: seq<Measurement>, policies: seq<Policy>,
      replies: seq<ProfileReply>, k: nat, p: Policy)
    requires k <= |policies| == |replies|
    ensures ProfiledEntry(Replay(before), Replay(before + Profiled(policies, replies, k)), policies, replies, k, p)
  {
    hide ProfiledEntry, Replay;
    if k == 0 {
      assert before + [] == before;
      ProfileNone(Replay(before), policies, replies, p);
    } else {
      ReplayProfiled(before, policies, replies, k - 1, p);
      var front, r := Profiled(policies, replies, k - 1), replies[k - 1];
      var mid := Replay(before + front);
      if r.accepted && r.reading.Some? {
        var x := Measurement(policies[k - 1], r.reading.value.missRatio, r.at);
        assert before + (front + [x]) == (before + front) + [x];
        StoredMeasurement(before + front, x);
        if policies[k - 1] == p {
          ProfileOwn(Replay(before), mid, policies, replies, k - 1);
        } else {
          ProfileOther(Replay(before), mid, Store(mid, x), policies, replies, k - 1, p);
        }
      } else {
        ProfileOther(Replay(before), mid, mid, policies, replies, k - 1, p);
      }
    }
  }

  /** The measurement is what the server, after the command at some position, reported under the policy it then ran. */
  ghost predicate TakenUnderActive(x: Measurement, initial: Policy, policies: seq<Policy>, replies: seq<ProfileReply>)
    requires |policies| == |replies|
  {
    exists i: nat :: i < |policies| && replies[i].reading.Some?
      && x == Measurement(LastAccepted(initial, policies, replies, i + 1), replies[i].reading.value.missRatio,
          replies[i].at)
  }

  lemma {:induction false} ProfiledUnderActive(initial: Policy, policies: seq<Policy>, replies: seq<ProfileReply>, k: nat)
    requires k <= |policies| == |replies|
    ensures forall x | x in Profiled(policies, replies, k) :: TakenUnderActive(x, initial, policies, replies)
  {
    if k > 0 {
      ProfiledUnderActive(initial, policies, replies, k - 1);
      var r := replies[k - 1];
      if r.accepted && r.reading.Some? {
        var x := Measurement(policies[k - 1], r.reading.value.missRatio, r.at);
        assert LastAccepted(initial, policies, replies, k) == policies[k - 1];
        assert TakenUnderActive(x, initial, policies, replies);
      }
    }
  }

  /** A measured policy with the lowest miss ratio; "" when no ratio is at most one. */
  ghost predicate IsBestPolicy(entries: map<Policy, Entry>, best: Policy) {
    if exists p :: p in entries && entries[p].missRatio <= 1.0 then
      best in entries && forall p | p in entries :: entries[best].missRatio <= entries[p].missRatio
    else best == ""
  }

  // ----- what the completeness test means -----

  ghost predicate Distinct(s: seq<Policy>) {
    forall i, j | 0 <= i < j < |s| :: s[i] != s[j]
  }

  ghost function Elements(s: seq<Policy>): set<Policy> {
    set p | p in s
  }

  lemma ElementsHas(s: seq<Policy>, p: Policy)
    ensures p in Elements(s) <==> p in s
  {
  }

  lemma {:induction false} ElementsSize(s: seq<Policy>)
    ensures |Elements(s)| <= |s|
    ensures |Elements(s)| == |s| <==> Distinct(s)
  {
    if s == [] {
    } else {
      var front, last := s[..|s| - 1], s[|s| - 1];
      ElementsSize(front);
      assert s == front + [last];
      assert Elements(s) == Elements(front) + {last};
      if last in front {
        assert Elements(s) == Elements(front);
        var i :| 0 <= i < |front| && front[i] == last;
        assert s[i] == s[|s| - 1];
      } else {
        assert last !in Elements(front);
        if Distinct(front) {
          forall i, j | 0 <= i < j < |s|
            ensures s[i] != s[j]
          {
            if j < |front| {
              assert front[i] != front[j];
            } else {
              assert front[i] in front;
            }
          }
        } else {
          var i, j :| 0 <= i < j < |front| && front[i] == front[j];
          assert s[i] == s[j];
        }
      }
    }
  }

  lemma SubsetBySize(a: set<Policy>, b: set<Policy>)
    requires a <= b
    ensures |a| <= |b|
    ensures |a| == |b| <==> a == b
  {
    var rest := b - a;
    assert a + rest == b && |a + rest| == |a| + |rest|;
    assert |rest| == 0 <==> rest == {};
  }

  /** Comparing lengths decides whether every configured policy has data, whichever of them were measured. */
  ghost predicate LengthTestIsExact(configured: seq<Policy>) {
    forall measured | measured <= Elements(configured) :: |measured| == |configured| <==> measured == Elements(configured)
  }

  /** The length comparison is exact if and only if no policy is configured twice. */
  lemma CompletenessTest(configured: seq<Policy>)
    ensures LengthTestIsExact(configured) <==> Distinct(configured)
  {
    ElementsSize(configured);
    if Distinct(configured) {
      forall measured | measured <= Elements(configured)
        ensures |measured| == |configured| <==> measured == Elements(configured)
      {
        SubsetBySize(measured, Elements(configured));
      }
    } else {
      assert |Elements(configured)| != |configured|;
    }
  }

  /** The length comparison of an aggregator that measured configured policies only. */
  lemma LengthTest(measured: set<Policy>, configured: seq<Policy>)
    requires measured <= Elements(configured) && Distinct(configured)
    ensures |measured| == |configured| <==> forall p | p in configured :: p in measured
  {
    CompletenessTest(configured);
    assert measured == Elements(configured) <==> forall p | p in configured :: p in measured;
  }

  // ----- the aggregator -----

  class MetricsAggregator {
    const client: PaperClient
    var policyMetrics: map<Policy, PolicyMetrics>
    var history: seq<MetricsSnapshot>
    var configuredPolicies: seq<Policy>
    /** All measurements stored and all snapshots taken so far. */
    ghost var measured: seq<Measurement>
    ghost var collected: seq<MetricsSnapshot>

    ghost function Entries(): map<Policy, Entry>
      reads this`policyMetrics, policyMetrics.Values
    {
      ValuesOf(policyMetrics)
    }

    /** Each policy has an object of its own. */
    ghost predicate Shape()
      reads this`policyMetrics, policyMetrics.Values
    {
      && (forall p, q | p in policyMetrics && q in policyMetrics && policyMetrics[p] == policyMetrics[q] :: p == q)
      && (forall p | p in policyMetrics :: policyMetrics[p].name == p)
    }

    ghost predicate Valid()
      reads this, policyMetrics.Values
    {
      && Shape()
      && Entries() == Replay(measured)
      && history == Last(MAX_HISTORY, collected)
    }

    /** Only configured policies were measured. */
    ghost predicate Known()
      reads this`policyMetrics, this`configuredPolicies
    {
      policyMetrics.Keys <= Elements(configuredPolicies)
    }

    /** Every configured policy was measured. */
    ghost predicate Complete()
      reads this`policyMetrics, this`configuredPolicies
    {
      forall p | p in configuredPolicies :: p in policyMetrics
    }

    lemma LengthTells()
      ensures Known() && Distinct(configuredPolicies) ==> (|policyMetrics| == |configuredPolicies| <==> Complete())
    {
      if Known() && Distinct(configuredPolicies) {
        LengthTest(policyMetrics.Keys, configuredPolicies);
      }
    }

    constructor (client: PaperClient)
      ensures Valid() && this.client == client && measured == [] && collected == [] && configuredPolicies == []
      ensures policyMetrics == map[]
    {
      this.client := client;
      policyMetrics, history, configuredPolicies := map[], [], [];
      measured, collected := [], [];
    }

    method Initialize(reply: Option<PaperStatus>) returns (ok: bool)
      requires Valid()
      modifies this`configuredPolicies
      ensures Valid() && ok == reply.Some?
      ensures configuredPolicies == if ok then reply.value.policies else old(configuredPolicies)
      ensures policyMetrics == map[] ==> Known()
    {
      if reply.None? {
        return false;
      }
      configuredPolicies := reply.value.policies;
      return true;
    }

    /** Updates the policy's object in place, or adds a new one. */
    method StorePolicyMetrics(policyName: Policy, missRatio: real, now: Time)
      requires Valid()
      modifies this`policyMetrics, this`measured, policyMetrics.Values
      ensures Valid() && measured == old(measured) + [Measurement(policyName, missRatio, now)]
      ensures policyMetrics.Keys == old(policyMetrics).Keys + {policyName}
      ensures fresh(policyMetrics.Values - old(policyMetrics.Values))
    {
      hide Last, ValuesOf, Shape, Store, Replay;
      StoredMeasurement(measured, Measurement(policyName, missRatio, now));
      ghost var x := Measurement(policyName, missRatio, now);
      if policyName in policyMetrics {
        UpdateExisting(policyName, missRatio, now);
        assert policyMetrics.Keys == old(policyMetrics).Keys + {policyName};
      } else {
        AddNew(policyName, missRatio, now);
      }
      measured := measured + [x];
    }

    method UpdateExisting(policyName: Policy, missRatio: real, now: Time)
      requires Shape() && policyName in policyMetrics
      modifies policyMetrics[policyName]
      ensures Shape() && Entries() == Store(old(Entries()), Measurement(policyName, missRatio, now))
    {
      policyMetrics[policyName].Update(missRatio, now);
    }

    method AddNew(policyName: Policy, missRatio: real, now: Time)
      requires Shape() && policyName !in policyMetrics
      modifies this`policyMetrics
      ensures Shape() && Entries() == Store(old(Entries()), Measurement(policyName, missRatio, now))
      ensures policyMetrics.Keys == old(policyMetrics).Keys + {policyName}
      ensures fresh(policyMetrics.Values - old(policyMetrics.Values))
    {
      var created := new PolicyMetrics(Entry(policyName, missRatio, 1.0 - missRatio, now, 1));
      policyMetrics := policyMetrics[policyName := created];
    }

    /** Switches through the configured policies; a refused switch or a missing status skips the policy. */
    method FastProfile(replies: seq<ProfileReply>) returns (ok: bool)
      requires Valid() && |replies| == |configuredPolicies|
      modifies this`policyMetrics, this`measured, policyMetrics.Values, client
      ensures Valid() && ok == (configuredPolicies != [])
      ensures measured == old(measured) + Profiled(configuredPolicies, replies, |replies|)
      ensures client.active == LastAccepted(old(client.active), configuredPolicies, replies, |replies|)
      ensures old(Known()) ==> Known()
      ensures forall p :: ProfiledEntry(old(Entries()), Entries(), configuredPolicies, replies, |replies|, p)
      ensures |old(measured)| <= |measured| && forall i | |old(measured)| <= i < |measured| ::
                TakenUnderActive(measured[i], old(client.active), configuredPolicies, replies)
      ensures fresh(policyMetrics.Values - old(policyMetrics.Values))
    {
      hide Shape, Replay, Last, ValuesOf, ProfiledEntry, TakenUnderActive;
      ProfiledUnderActive(client.active, configuredPolicies, replies, |replies|);
      forall p
        ensures ProfiledEntry(Entries(), Replay(measured + Profiled(configuredPolicies, replies, |replies|)),
                              configuredPolicies, replies, |replies|, p)
      {
        ReplayProfiled(measured, configuredPolicies, replies, |replies|, p);
      }
      var policies := configuredPolicies;
      if |policies| == 0 {
        return false;
      }
      for i := 0 to |policies|
        invariant Valid()
        invariant measured == old(measured) + Profiled(policies, replies, i)
        invariant client.active == LastAccepted(old(client.active), policies, replies, i)
        invariant old(Known()) ==> Known()
        invariant fresh(policyMetrics.Values - old(policyMetrics.Values))
      {
        var switched := client.SetPolicy(policies[i], replies[i].accepted);
        if !switched {
          continue;
        }
        var status := client.Status(replies[i].reading);
        if status.None? {
          continue;
        }
        StorePolicyMetrics(policies[i], status.value.missRatio, replies[i].at);
      }
      return true;
    }

    /** Stores the measurement and the snapshot, and answers with a view that shares no object with the aggregator. */
    method CollectCurrentMetrics(reply: Option<PaperStatus>, now: Time) returns (view: AggregatedMetrics?)
      requires Valid()
      modifies this`policyMetrics, this`measured, this`history, this`collected, policyMetrics.Values
      ensures Valid()
      ensures fresh(policyMetrics.Values - old(policyMetrics.Values))
      ensures reply.None? ==> view == null && measured == old(measured) && collected == old(collected)
      ensures old(Known()) && (reply.Some? ==> reply.value.policy in configuredPolicies) ==> Known()
      ensures view != null && Known() && Distinct(configuredPolicies) ==> (view.isComplete <==> Complete())
      ensures reply.Some? ==>
                && view != null && fresh(view) && fresh(view.allPoliciesMetrics.Values)
                && view.allPoliciesMetrics.Values !! policyMetrics.Values
                && measured == old(measured) + [Measurement(reply.value.policy, reply.value.missRatio, now)]
                && collected == old(collected) + [SnapshotOf(reply.value, now)]
                && ValuesOf(view.allPoliciesMetrics) == Entries()
                && view.currentPolicy == reply.value.policy && view.currentPolicyMissRatio == reply.value.missRatio
                && view.cacheSize == reply.value.maxSize && view.history == history
    {
      hide Valid, Distinct, Complete, ValuesOf, Known;
      if reply.None? {
        return null;
      }
      Record(reply.value, now);
      view := BuildAggregatedMetrics();
    }

    method Record(status: PaperStatus, now: Time)
      requires Valid()
      modifies this`policyMetrics, this`measured, this`history, this`collected, policyMetrics.Values
      ensures Valid()
      ensures fresh(policyMetrics.Values - old(policyMetrics.Values))
      ensures old(Known()) && status.policy in configuredPolicies ==> Known()
      ensures measured == old(measured) + [Measurement(status.policy, status.missRatio, now)]
      ensures collected == old(collected) + [SnapshotOf(status, now)]
      ensures history != [] && history[|history| - 1] == SnapshotOf(status, now)
      ensures var latest := history[|history| - 1];
              && latest.timestamp == now && latest.currentPolicy == status.policy && latest.missRatio == status.missRatio
              && latest.cacheSize == status.maxSize && latest.usedSize == status.usedSize
              && latest.numObjects == status.numObjects
              && latest.totalGets == status.totalGets && latest.totalSets == status.totalSets
    {
      hide Shape, Last, ValuesOf, Replay, Elements;
      ElementsHas(configuredPolicies, status.policy);
      StorePolicyMetrics(status.policy, status.missRatio, now);
      AppendSnapshot(SnapshotOf(status, now));
    }

    method AppendSnapshot(snapshot: MetricsSnapshot)
      requires Valid()
      modifies this`history, this`collected
      ensures Valid() && collected == old(collected) + [snapshot]
      ensures history != [] && history[|history| - 1] == snapshot
    {
      PushKeepsLast(collected, MAX_HISTORY, snapshot);
      hide ValuesOf, Replay, Last;
      history := history + [snapshot];
      collected := collected + [snapshot];
      if |history| > MAX_HISTORY {
        history := history[1..];
      }
    }

    /** A copy of every metrics object, made in an arbitrary order. */
    method CopyMetrics() returns (copies: map<Policy, PolicyMetrics>)
      ensures fresh(copies.Values) && ValuesOf(copies) == Entries()
    {
      copies := map[];
      var remaining := policyMetrics.Keys;
      while remaining != {}
        invariant remaining <= policyMetrics.Keys
        invariant copies.Keys == policyMetrics.Keys - remaining
        invariant forall p | p in copies :: fresh(copies[p])
        invariant forall p | p in copies :: copies[p].Value() == policyMetrics[p].Value()
        decreases |remaining|
      {
        var p :| p in remaining;
        var copied := new PolicyMetrics(policyMetrics[p].Value());
        copies := copies[p := copied];
        remaining := remaining - {p};
      }
    }

    method BuildAggregatedMetrics() returns (view: AggregatedMetrics)
      requires Valid()
      ensures fresh(view) && fresh(view.allPoliciesMetrics.Values)
      ensures ValuesOf(view.allPoliciesMetrics) == Entries()
      ensures view.history == history && view.isComplete == (|policyMetrics| == |configuredPolicies|)
      ensures Known() && Distinct(configuredPolicies) ==> (view.isComplete <==> Complete())
      ensures history != [] ==>
                var latest := history[|history| - 1];
                && view.currentPolicy == latest.currentPolicy && view.currentPolicyMissRatio == latest.missRatio
                && view.cacheSize == latest.cacheSize
    {
      hide Valid, ValuesOf, Known, Distinct, Complete;
      var copies := CopyMetrics();
      LengthTells();
      view := new AggregatedMetrics(copies, history, |policyMetrics| == |configuredPolicies|);
    }

    /** Visits the entries in an arbitrary order. */
    method SelectBestPolicy() returns (best: Policy)
      requires Valid()
      ensures IsBestPolicy(Entries(), best)
    {
      best := "";
      var bestMissRatio := 1.0;
      var remaining := policyMetrics.Keys;
      var found := false;
      while remaining != {}
        invariant remaining <= policyMetrics.Keys
        invariant found ==> best in policyMetrics && policyMetrics[best].missRatio == bestMissRatio <= 1.0
        invariant !found ==> best == "" && bestMissRatio == 1.0
        invariant forall p | p in policyMetrics && p !in remaining :: bestMissRatio <= policyMetrics[p].missRatio
        invariant !found ==> forall p | p in policyMetrics && p !in remaining :: policyMetrics[p].missRatio > 1.0
        decreases |remaining|
      {
        var p :| p in remaining;
        remaining := remaining - {p};
        if policyMetrics[p].missRatio <= bestMissRatio {
          bestMissRatio := policyMetrics[p].missRatio;
          best := p;
          found := true;
        }
      }
      assert forall p | p in policyMetrics :: Entries()[p].missRatio == policyMetrics[p].missRatio;
    }

    /** When only configured policies were measured and none is configured twice: whether all of them were. */
    method IsDataComplete() returns (complete: bool)
      ensures complete == (|policyMetrics| == |configuredPolicies|)
      ensures Known() && Distinct(configuredPolicies) ==> (complete <==> Complete())
    {
      LengthTells();
      return |policyMetrics| == |configuredPolicies|;
    }
  }
}
