/**
  How often concurrent requests invoke a cached function when the cache keeps everything (proxy/proxy.go:219-249,
  322-347).
 */
module FlowMemo {
  import opened CacheTypes
  import opened Flows
  import opened FlowMachine

  // ----- runs over a cache that keeps everything -----

  predicate Honest(d: Deployment, n: Net, step: Step)
    requires Enabled(d, n, step)
  {
    match step
    case Look(id, found) =>
      var a := n.activations[id];
      found == (Caches(d, a.name) && Key(d, a.name, a.args) in n.cache)
    case Store(_, stored) => stored
    case Evict(_) => false
    case _ => true
  }

  ghost predicate Perfect(d: Deployment, n: Net, steps: seq<Step>)
    requires Legal(d, n, steps)
  {
    steps == [] ||
    (Perfect(d, n, steps[..|steps| - 1]) && Honest(d, After(d, n, steps[..|steps| - 1]), steps[|steps| - 1]))
  }

  ghost predicate HasKey(d: Deployment, a: Activation, key: string) {
    Caches(d, a.name) && Key(d, a.name, a.request) == key
  }

  /** The handler has looked without success and not yet stored. */
  predicate InFlight(a: Activation) {
    a.stage.Gathering? || a.stage.Answered?
  }

  predicate Computed(a: Activation) {
    a.stage.Answered? || (a.stage.Finished? && a.stage.computed)
  }

  predicate Missed(a: Activation) {
    InFlight(a) || Computed(a)
  }

  /** Handlers that invoked the function under this key. */
  ghost function Invokers(d: Deployment, all: seq<Activation>, key: string): set<nat> {
    set id: nat | id < |all| && HasKey(d, all[id], key) && Computed(all[id])
  }

  /** Invocations of cached functions under this key during a run. */
  ghost function Invocations(d: Deployment, n: Net, steps: seq<Step>, key: string): nat
    requires Legal(d, n, steps)
  {
    if steps == [] then 0
    else
      var front, last := steps[..|steps| - 1], steps[|steps| - 1];
      Invocations(d, n, front, key)
      + if last.Invoke? && HasKey(d, After(d, n, front).activations[last.id], key) then 1 else 0
  }

  // ----- what steps do to handlers -----

  ghost predicate GoesOn(a: Activation, b: Activation) {
    a.name == b.name && a.request == b.request && (Missed(a) ==> Missed(b))
  }

  lemma {:induction false} StepGoesOn(d: Deployment, n: Net, step: Step, id: nat)
    requires Enabled(d, n, step) && id < |n.activations|
    ensures var after := Apply(d, n, step).activations;
            id < |after| && GoesOn(n.activations[id], after[id])
  {
    hide Key, Effective, Mapped, Busy;
  }

  lemma {:induction false} StepInvokers(d: Deployment, n: Net, step: Step, key: string)
    requires Enabled(d, n, step)
    ensures Invokers(d, Apply(d, n, step).activations, key) ==
              Invokers(d, n.activations, key) +
              if step.Invoke? && HasKey(d, n.activations[step.id], key) then {step.id} else {}
    ensures step.Invoke? ==> step.id !in Invokers(d, n.activations, key)
  {
    hide Key, Effective, Mapped, Busy, Caches;
  }

  /** Each invocation has a handler of its own. */
  lemma {:induction false} InvocationsCount(d: Deployment, cache: map<string, Body>, steps: seq<Step>, key: string)
    requires Legal(d, Net(cache, []), steps)
    ensures Invocations(d, Net(cache, []), steps, key) == |Invokers(d, After(d, Net(cache, []), steps).activations, key)|
  {
    hide Enabled, Apply, Invokers;
    if steps == [] {
      assert Invokers(d, [], key) == {} by {
        NoInvokers(d, key);
      }
    } else {
      var front := steps[..|steps| - 1];
      InvocationsCount(d, cache, front, key);
      StepInvokers(d, After(d, Net(cache, []), front), steps[|steps| - 1], key);
    }
  }

  lemma NoInvokers(d: Deployment, key: string)
    ensures Invokers(d, [], key) == {}
  {
  }

  // ----- where entries come from -----

  /** Every entry under a new key belongs to a caching flow's request whose handler invoked the function. */
  ghost predicate FromInvokers(d: Deployment, initial: map<string, Body>, n: Net) {
    forall key | key in n.cache && key !in initial :: Invokers(d, n.activations, key) != {}
  }

  lemma {:induction false} StepFromInvokers(d: Deployment, initial: map<string, Body>, n: Net, step: Step)
    requires Inv(d, n) && Enabled(d, n, step) && FromInvokers(d, initial, n)
    ensures FromInvokers(d, initial, Apply(d, n, step))
  {
    var after := Apply(d, n, step);
    forall key | key in after.cache && key !in initial
      ensures Invokers(d, after.activations, key) != {}
    {
      StepInvokers(d, n, step, key);
      if key !in n.cache {
        StoredByInvoker(d, n, step, key);
      }
    }
  }

  lemma StoredByInvoker(d: Deployment, n: Net, step: Step, key: string)
    requires Inv(d, n) && Enabled(d, n, step) && key !in n.cache && key in Apply(d, n, step).cache
    ensures Invokers(d, n.activations, key) != {}
  {
    hide Effective, Mapped, Busy, CacheRight, Right, OutputsRight, PendingRight, Caches;
    assert step.Store?;
    var a := n.activations[step.id];
    assert ActivationRight(d, a);
    KeyStable(d, a.name, a.request);
    assert step.id in Invokers(d, n.activations, key);
  }

  /** Nothing is stored for flows that are not cached, and nothing that was not invoked. */
  lemma {:induction false} EntriesAreInvoked(d: Deployment, cache: map<string, Body>, steps: seq<Step>)
    requires InjectiveHash(d) && CacheRight(d, cache) && Legal(d, Net(cache, []), steps)
    ensures FromInvokers(d, cache, After(d, Net(cache, []), steps))
  {
    hide Enabled, Apply, Inv, Invokers, InjectiveHash, CacheRight;
    if steps == [] {
    } else {
      var front := steps[..|steps| - 1];
      EntriesAreInvoked(d, cache, front);
      assert Inv(d, Net(cache, [])) by {
        EmptyInv(d, cache);
      }
      RunsKeepInv(d, Net(cache, []), front);
      StepFromInvokers(d, cache, After(d, Net(cache, []), front), steps[|steps| - 1]);
    }
  }

  lemma EmptyInv(d: Deployment, cache: map<string, Body>)
    requires CacheRight(d, cache)
    ensures Inv(d, Net(cache, []))
  {
  }

  // ----- the exact condition -----

  /** Whoever computed and stored under a key left it in the cache. */
  ghost predicate Kept(d: Deployment, n: Net) {
    forall id | 0 <= id < |n.activations| && n.activations[id].stage.Finished? && Computed(n.activations[id])
                && Caches(d, n.activations[id].name) ::
      Key(d, n.activations[id].name, n.activations[id].request) in n.cache
  }

  lemma StepKeeps(d: Deployment, n: Net, step: Step)
    requires Inv(d, n) && Kept(d, n) && Enabled(d, n, step) && Honest(d, n, step)
    ensures Kept(d, Apply(d, n, step))
  {
    hide Effective, Mapped, Busy, CacheRight, Right, OutputsRight, PendingRight, Caches;
    if step.Store? {
      var a := n.activations[step.id];
      assert ActivationRight(d, a);
      KeyStable(d, a.name, a.request);
    }
    hide Key;
  }

  lemma {:induction false} RunKeeps(d: Deployment, cache: map<string, Body>, steps: seq<Step>)
    requires InjectiveHash(d) && CacheRight(d, cache)
    requires Legal(d, Net(cache, []), steps) && Perfect(d, Net(cache, []), steps)
    ensures Inv(d, After(d, Net(cache, []), steps)) && Kept(d, After(d, Net(cache, []), steps))
  {
    hide Enabled, Apply, Honest;
    var start := Net(cache, []);
    RunsKeepInv(d, start, steps);
    if steps == [] {
    } else {
      var front := steps[..|steps| - 1];
      RunKeeps(d, cache, front);
      StepKeeps(d, After(d, start, front), steps[|steps| - 1]);
    }
  }

  /** After the first t steps, handlers i and j were both between their look and their store. */
  ghost predicate Together(d: Deployment, n: Net, steps: seq<Step>, t: nat, i: nat, j: nat) {
    && t <= |steps| && Legal(d, n, steps[..t])
    && var all := After(d, n, steps[..t]).activations;
       i < |all| && j < |all| && InFlight(all[i]) && InFlight(all[j])
  }

  lemma {:induction false} TogetherBefore(d: Deployment, n: Net, steps: seq<Step>, t: nat, i: nat, j: nat)
    requires steps != [] && Together(d, n, steps[..|steps| - 1], t, i, j)
    ensures Together(d, n, steps, t, i, j)
  {
    hide Legal, After, InFlight;
    assert steps[..|steps| - 1][..t] == steps[..t];
  }

  lemma {:induction false} LookTogether(d: Deployment, n: Net, step: Step, i: nat, j: nat, key: string)
    requires Inv(d, n) && Kept(d, n) && Enabled(d, n, step) && Honest(d, n, step)
    requires i != j && i < |n.activations| && j < |n.activations|
    requires HasKey(d, n.activations[i], key) && HasKey(d, n.activations[j], key)
    requires !Missed(n.activations[i]) && Missed(n.activations[j])
    requires var after := Apply(d, n, step).activations; Missed(after[i])
    ensures var after := Apply(d, n, step).activations; InFlight(after[i]) && InFlight(after[j])
  {
    hide Effective, Mapped, Busy, CacheRight, Right, OutputsRight, PendingRight;
    assert step == Look(i, false);
    assert ActivationRight(d, n.activations[i]);
  }

  lemma {:induction false} MissedBefore(d: Deployment, n: Net, step: Step, id: nat)
    requires Enabled(d, n, step) && id < |Apply(d, n, step).activations| && Missed(Apply(d, n, step).activations[id])
    ensures id < |n.activations|
    ensures Missed(n.activations[id]) || (step.Look? && step.id == id)
  {
    hide Key, Effective, Mapped, Busy;
  }

  lemma StepTogether(d: Deployment, n: Net, step: Step, i: nat, j: nat, key: string)
    requires Inv(d, n) && Kept(d, n) && Enabled(d, n, step) && Honest(d, n, step)
    requires var after := Apply(d, n, step).activations;
             && i != j && i < |after| && j < |after| && Missed(after[i]) && Missed(after[j])
             && HasKey(d, after[i], key) && HasKey(d, after[j], key)
    ensures i < |n.activations| && j < |n.activations|
    ensures HasKey(d, n.activations[i], key) && HasKey(d, n.activations[j], key)
    ensures var after := Apply(d, n, step).activations;
            (Missed(n.activations[i]) && Missed(n.activations[j])) || (InFlight(after[i]) && InFlight(after[j]))
  {
    MissedBefore(d, n, step, i);
    MissedBefore(d, n, step, j);
    StepGoesOn(d, n, step, i);
    StepGoesOn(d, n, step, j);
    hide Enabled, Apply, Honest, Inv, Kept, InFlight, Computed, Key, Caches;
    if !Missed(n.activations[i]) {
      LookTogether(d, n, step, i, j, key);
    } else if !Missed(n.activations[j]) {
      LookTogether(d, n, step, j, i, key);
    }
  }

  /** Two handlers that both missed under one key were at some time both between look and store. */
  lemma {:induction false} FindTogether(d: Deployment, cache: map<string, Body>, steps: seq<Step>, i: nat, j: nat,
      key: string)
    returns (t: nat)
    requires InjectiveHash(d) && CacheRight(d, cache)
    requires Legal(d, Net(cache, []), steps) && Perfect(d, Net(cache, []), steps)
    requires var all := After(d, Net(cache, []), steps).activations;
             && i != j && i < |all| && j < |all| && Missed(all[i]) && Missed(all[j])
             && HasKey(d, all[i], key) && HasKey(d, all[j], key)
    ensures Together(d, Net(cache, []), steps, t, i, j)
  {
    hide Enabled, Apply, Honest, Inv, Kept, InFlight, Missed, HasKey;
    var start := Net(cache, []);
    var front := steps[..|steps| - 1];
    var n := After(d, start, front);
    RunKeeps(d, cache, front);
    StepTogether(d, n, steps[|steps| - 1], i, j, key);
    if Missed(n.activations[i]) && Missed(n.activations[j]) {
      t := FindTogether(d, cache, front, i, j, key);
      TogetherBefore(d, start, steps, t, i, j);
    } else {
      t := |steps|;
      assert steps[..t] == steps;
    }
  }

  /** Two handlers that invoked the function under this key overlapped. */
  ghost predicate Overlapped(d: Deployment, n: Net, steps: seq<Step>, key: string)
    requires Legal(d, n, steps)
  {
    var invokers := Invokers(d, After(d, n, steps).activations, key);
    exists t, i, j :: i in invokers && j in invokers && i != j && Together(d, n, steps, t, i, j)
  }

  lemma Pair(s: set<nat>)
    ensures |s| > 1 <==> exists i, j :: i in s && j in s && i != j
  {
    if |s| > 1 {
      var i :| i in s;
      assert |s - {i}| > 0;
      var j :| j in s - {i};
    }
    if i, j :| i in s && j in s && i != j {
      assert {i, j} <= s && |{i, j}| == 2;
      assert s == {i, j} + (s - {i, j});
    }
  }

  /**
    Memoisation of concurrent requests, exactly. Over a cache that keeps everything, the function is invoked at most
    once under a key if and only if no two handlers that invoke it are ever both between their look and their store.
   */
  lemma {:induction false} MemoisedExactly(d: Deployment, cache: map<string, Body>, steps: seq<Step>, key: string)
    requires InjectiveHash(d) && CacheRight(d, cache)
    requires Legal(d, Net(cache, []), steps) && Perfect(d, Net(cache, []), steps)
    ensures Invocations(d, Net(cache, []), steps, key) <= 1 <==> !Overlapped(d, Net(cache, []), steps, key)
  {
    hide Perfect, Legal, After, Invocations, HasKey, CacheRight, Together;
    var start := Net(cache, []);
    var invokers := Invokers(d, After(d, start, steps).activations, key);
    InvocationsCount(d, cache, steps, key);
    Pair(invokers);
    if i, j :| i in invokers && j in invokers && i != j {
      var t := FindTogether(d, cache, steps, i, j, key);
    }
  }

  // ----- what callers can do -----

  /** The step starts a request, from outside or for a child, that is cached under this key. */
  ghost predicate Starts(d: Deployment, n: Net, step: Step, key: string)
    requires Enabled(d, n, step)
  {
    match step
    case Arrive(name, request) => Caches(d, name) && Key(d, name, request) == key
    case Call(id, alias) =>
      var child := Children(d, n.activations[id].name)[alias];
      && !External(d, child.target)
      && Caches(d, child.target) && Key(d, child.target, Mapped(child.argsMap, n.activations[id].args)) == key
    case _ => false
  }

  ghost predicate AllDone(d: Deployment, n: Net, key: string) {
    forall id | 0 <= id < |n.activations| && HasKey(d, n.activations[id], key) :: n.activations[id].stage.Finished?
  }

  /** No request with this key is started while another one with it is unfinished. */
  ghost predicate Serial(d: Deployment, n: Net, steps: seq<Step>, key: string)
    requires Legal(d, n, steps)
  {
    steps == [] ||
    var front, last := steps[..|steps| - 1], steps[|steps| - 1];
    && Serial(d, n, front, key)
    && (Starts(d, After(d, n, front), last, key) ==> AllDone(d, After(d, n, front), key))
  }

  /** Of the handlers with this key at most one is unfinished and at most one has missed. */
  ghost predicate Single(d: Deployment, n: Net, key: string) {
    forall i, j | 0 <= i < |n.activations| && 0 <= j < |n.activations|
                  && HasKey(d, n.activations[i], key) && HasKey(d, n.activations[j], key) ::
      && (!n.activations[i].stage.Finished? && !n.activations[j].stage.Finished? ==> i == j)
      && (Missed(n.activations[i]) && Missed(n.activations[j]) ==> i == j)
  }

  lemma {:induction false} UnfinishedBefore(d: Deployment, n: Net, step: Step, id: nat, key: string)
    requires Enabled(d, n, step)
    requires var after := Apply(d, n, step).activations;
             id < |after| && HasKey(d, after[id], key) && !after[id].stage.Finished?
    ensures if id < |n.activations| then HasKey(d, n.activations[id], key) && !n.activations[id].stage.Finished?
            else id == |n.activations| && Starts(d, n, step, key)
  {
    hide Key, Effective, Mapped, Busy;
  }

  lemma StepSingle(d: Deployment, n: Net, step: Step, key: string)
    requires Inv(d, n) && Kept(d, n) && Single(d, n, key) && Enabled(d, n, step) && Honest(d, n, step)
    requires Starts(d, n, step, key) ==> AllDone(d, n, key)
    ensures Single(d, Apply(d, n, step), key)
  {
    hide Enabled, Apply, Honest, Inv, Kept, HasKey, Starts;
    var after := Apply(d, n, step).activations;
    forall i, j | 0 <= i < |after| && 0 <= j < |after| && HasKey(d, after[i], key) && HasKey(d, after[j], key)
      ensures !after[i].stage.Finished? && !after[j].stage.Finished? ==> i == j
      ensures Missed(after[i]) && Missed(after[j]) ==> i == j
    {
      StepSinglePair(d, n, step, i, j, key);
    }
  }

  lemma {:induction false} StepSinglePair(d: Deployment, n: Net, step: Step, i: nat, j: nat, key: string)
    requires Inv(d, n) && Kept(d, n) && Single(d, n, key) && Enabled(d, n, step) && Honest(d, n, step)
    requires Starts(d, n, step, key) ==> AllDone(d, n, key)
    requires var after := Apply(d, n, step).activations;
             i < |after| && j < |after| && HasKey(d, after[i], key) && HasKey(d, after[j], key)
    ensures var after := Apply(d, n, step).activations;
            && (!after[i].stage.Finished? && !after[j].stage.Finished? ==> i == j)
            && (Missed(after[i]) && Missed(after[j]) ==> i == j)
  {
    hide Enabled, Apply, Honest, Inv, Kept, HasKey, Starts;
    var after := Apply(d, n, step).activations;
    if !after[i].stage.Finished? && !after[j].stage.Finished? {
      UnfinishedBefore(d, n, step, i, key);
      UnfinishedBefore(d, n, step, j, key);
    }
    if i != j && Missed(after[i]) && Missed(after[j]) {
      StepTogether(d, n, step, i, j, key);
    }
  }

  lemma {:induction false} RunSingle(d: Deployment, cache: map<string, Body>, steps: seq<Step>, key: string)
    requires InjectiveHash(d) && CacheRight(d, cache)
    requires Legal(d, Net(cache, []), steps) && Perfect(d, Net(cache, []), steps) && Serial(d, Net(cache, []), steps, key)
    ensures Single(d, After(d, Net(cache, []), steps), key)
  {
    hide Enabled, Apply, Honest, Inv, Kept, HasKey, Starts, AllDone;
    if steps == [] {
    } else {
      var front := steps[..|steps| - 1];
      RunSingle(d, cache, front, key);
      RunKeeps(d, cache, front);
      StepSingle(d, After(d, Net(cache, []), front), steps[|steps| - 1], key);
    }
  }

  /**
    What callers can do: if no request or child with a key is started while another with that key is unfinished, the
    function is invoked at most once under it, whatever requests with other keys do meanwhile.
   */
  lemma {:induction false} SerialMemoised(d: Deployment, cache: map<string, Body>, steps: seq<Step>, key: string)
    requires InjectiveHash(d) && CacheRight(d, cache)
    requires Legal(d, Net(cache, []), steps) && Perfect(d, Net(cache, []), steps) && Serial(d, Net(cache, []), steps, key)
    ensures Invocations(d, Net(cache, []), steps, key) <= 1
  {
    hide Perfect, Legal, After, Invocations, HasKey, CacheRight, Serial;
    RunSingle(d, cache, steps, key);
    InvocationsCount(d, cache, steps, key);
    Pair(Invokers(d, After(d, Net(cache, []), steps).activations, key));
  }

  // ----- what happens when they do not -----

  ghost predicate Reaching(d: Deployment, cache: map<string, Body>, steps: seq<Step>, n: Net) {
    Legal(d, Net(cache, []), steps) && Perfect(d, Net(cache, []), steps) && After(d, Net(cache, []), steps) == n
  }

  lemma {:induction false} ExtendReaching(d: Deployment, cache: map<string, Body>, steps: seq<Step>, n: Net, step: Step)
    requires Reaching(d, cache, steps, n) && Enabled(d, n, step) && Honest(d, n, step)
    ensures Reaching(d, cache, steps + [step], Apply(d, n, step))
  {
    hide Enabled, Apply, Honest;
    Extend(d, Net(cache, []), steps, step);
    assert (steps + [step])[..|steps|] == steps;
  }

  /** A handler of a childless cached flow whose key is not in the cache. */
  ghost predicate Alone(d: Deployment, n: Net, id: nat) {
    && id < |n.activations|
    && var a := n.activations[id];
       && Caches(d, a.name) && Children(d, a.name) == map[] && a.pending.None?
       && Key(d, a.name, a.request) !in n.cache
       && (a.stage.Arrived? ==> a.args == a.request)
  }

  /** It looks, misses and invokes the function; nothing else changes. */
  lemma {:induction false} GoOn(d: Deployment, cache: map<string, Body>, steps: seq<Step>, n: Net, id: nat, look: bool)
    returns (more: seq<Step>, after: Net)
    requires Reaching(d, cache, steps, n) && Alone(d, n, id) && !n.activations[id].stage.Finished?
    requires !look ==> InFlight(n.activations[id])
    ensures Reaching(d, cache, more, after) && after.cache == n.cache && |after.activations| == |n.activations|
    ensures Alone(d, after, id)
    ensures forall i | 0 <= i < |n.activations| && i != id :: after.activations[i] == n.activations[i]
    ensures after.activations[id].name == n.activations[id].name
        && after.activations[id].request == n.activations[id].request
    ensures if look then InFlight(after.activations[id]) else after.activations[id].stage.Answered?
    ensures steps <= more && forall k | |steps| <= k < |more| :: !more[k].Arrive?
  {
    hide Reaching, Key, Answer;
    if look && n.activations[id].stage.Arrived? {
      ExtendReaching(d, cache, steps, n, Look(id, false));
      more, after := steps + [Look(id, false)], Apply(d, n, Look(id, false));
    } else if !look && n.activations[id].stage.Gathering? {
      ExtendReaching(d, cache, steps, n, Invoke(id));
      more, after := steps + [Invoke(id)], Apply(d, n, Invoke(id));
    } else {
      more, after := steps, n;
    }
  }

  /**
    Starting a request while another with its key is unfinished can repeat the invocation: whatever happened before,
    if the key is not cached and its flow has no children, one more request and the two handlers' own steps lead to
    two invocations.
   */
  lemma {:induction false} OverlapRepeats(d: Deployment, cache: map<string, Body>, steps: seq<Step>, id: nat)
    returns (more: seq<Step>)
    requires InjectiveHash(d) && CacheRight(d, cache)
    requires Legal(d, Net(cache, []), steps) && Perfect(d, Net(cache, []), steps)
    requires var n := After(d, Net(cache, []), steps);
             && id < |n.activations| && !n.activations[id].stage.Finished?
             && Caches(d, n.activations[id].name) && Children(d, n.activations[id].name) == map[]
             && Key(d, n.activations[id].name, n.activations[id].request) !in n.cache
    ensures var a := After(d, Net(cache, []), steps).activations[id];
            && steps + [Arrive(a.name, a.request)] <= more && (forall k | |steps| < k < |more| :: !more[k].Arrive?)
            && Legal(d, Net(cache, []), more) && Perfect(d, Net(cache, []), more)
            && Invocations(d, Net(cache, []), more, Key(d, a.name, a.request)) >= 2
  {
    var n := After(d, Net(cache, []), steps);
    var a := n.activations[id];
    RunKeeps(d, cache, steps);
    assert ActivationRight(d, a) && PendingRight(d, n.activations, a);
    var other := |n.activations|;
    hide Legal, Perfect, After, Key, Inv;
    var step := Arrive(a.name, a.request);
    ExtendReaching(d, cache, steps, n, step);
    more := steps + [step];
    var after := Apply(d, n, step);
    hide Reaching, Apply, Enabled;
    more, after := GoOn(d, cache, more, after, id, true);
    more, after := GoOn(d, cache, more, after, other, true);
    more, after := GoOn(d, cache, more, after, id, false);
    more, after := GoOn(d, cache, more, after, other, false);
    CountTwo(d, cache, more, after, id, other, Key(d, a.name, a.request));
  }

  lemma {:induction false} CountTwo(d: Deployment, cache: map<string, Body>, steps: seq<Step>, n: Net, i: nat,
      j: nat, key: string)
    requires Reaching(d, cache, steps, n) && i != j
    requires i in Invokers(d, n.activations, key) && j in Invokers(d, n.activations, key)
    ensures Legal(d, Net(cache, []), steps) && Perfect(d, Net(cache, []), steps)
    ensures Invocations(d, Net(cache, []), steps, key) >= 2
  {
    hide Legal, Perfect, After, Invocations, Invokers;
    InvocationsCount(d, cache, steps, key);
    Pair(Invokers(d, n.activations, key));
  }
}
