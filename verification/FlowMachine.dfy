/**
  All flow requests in flight at once (proxy/proxy.go). Every step is what one handler does between two exchanges
  with the cache, a child or the deployed function; handlers interleave freely and share one cache, which may lose
  entries, fail to find them and fail to store them at any time. They also share the connections of one HTTP client:
  a handler holds one from the call of an internal child until it has read the child's response, and waits while
  none is free.
 */
module FlowMachine {
  import opened CacheTypes
  import opened Flows

  datatype Stage =
    | Arrived
    | Gathering
    | Answered(body: Body)
    | Finished(body: Body, computed: bool)

  /** The child request a handler waits for. */
  datatype Pending = Pending(alias: string, id: nat)

  /** Observations, read by no step: the request from outside that caused a handler, its distance, and its caller. */
  datatype Place = Place(root: nat, level: nat, caller: nat)

  /** One run of the handler: the request as it came, the shared argument object, and the outputs so far. */
  datatype Activation = Activation(
    name: string, request: Args, args: Args, stage: Stage, outputs: map<string, FlowOutput>, pending: Option<Pending>,
    place: Place)

  datatype Net = Net(cache: map<string, Body>, activations: seq<Activation>)

  datatype Step =
    | Arrive(name: string, request: Args)
    | Look(id: nat, found: bool)
    | Call(id: nat, alias: string)
    | Collect(id: nat)
    | Invoke(id: nat)
    | Store(id: nat, stored: bool)
    | Evict(key: string)

  predicate Replied(a: Activation) {
    a.stage.Answered? || a.stage.Finished?
  }

  function New(name: string, request: Args, place: Place): Activation {
    Activation(name, request, request, Arrived, map[], None, place)
  }

  /** Handlers that hold a connection. */
  function Busy(all: seq<Activation>): set<nat> {
    set id: nat | id < |all| && all[id].pending.Some?
  }

  predicate Enabled(d: Deployment, n: Net, step: Step) {
    match step
    case Arrive(_, _) => true
    case Look(id, found) =>
      && id < |n.activations| && n.activations[id].stage.Arrived?
      && (found ==> Caches(d, n.activations[id].name) && Key(d, n.activations[id].name, n.activations[id].args) in n.cache)
    case Call(id, alias) =>
      && id < |n.activations| && n.activations[id].stage.Gathering? && n.activations[id].pending.None?
      && alias in Children(d, n.activations[id].name) && alias !in n.activations[id].outputs
      && (!External(d, Children(d, n.activations[id].name)[alias].target) ==> |Busy(n.activations)| < d.connections)
    case Collect(id) =>
      && id < |n.activations| && n.activations[id].stage.Gathering? && n.activations[id].pending.Some?
      && n.activations[id].pending.value.id < |n.activations| && Replied(n.activations[n.activations[id].pending.value.id])
    case Invoke(id) =>
      && id < |n.activations| && n.activations[id].stage.Gathering? && n.activations[id].pending.None?
      && Children(d, n.activations[id].name).Keys <= n.activations[id].outputs.Keys
    case Store(id, _) => id < |n.activations| && n.activations[id].stage.Answered?
    case Evict(_) => true
  }

  function Put(n: Net, id: nat, a: Activation): Net
    requires id < |n.activations|
  {
    n.(activations := n.activations[id := a])
  }

  function Apply(d: Deployment, n: Net, step: Step): Net
    requires Enabled(d, n, step)
  {
    match step
    case Arrive(name, request) =>
      n.(activations := n.activations + [New(name, request, Place(|n.activations|, 0, |n.activations|))])
    case Look(id, found) =>
      var a := n.activations[id];
      var e := Effective(d, a.name, a.args);
      Put(n, id, a.(args := e, stage := if found then Finished(n.cache[Key(d, a.name, a.args)], false) else Gathering))
    case Call(id, alias) =>
      var a := n.activations[id];
      var child := Children(d, a.name)[alias];
      var args := Mapped(child.argsMap, a.args);
      if External(d, child.target) then
        var data := d.thirdParty(d.flows[child.target].thirdPartyURL.value, args);
        Put(n, id, a.(outputs := a.outputs[alias := FlowOutput(data, child.target)]))
      else
        var waiting := Put(n, id, a.(pending := Some(Pending(alias, |n.activations|))));
        waiting.(activations := waiting.activations + [New(child.target, args, Inside(a, id))])
    case Collect(id) =>
      var a := n.activations[id];
      var child := n.activations[a.pending.value.id];
      Put(n, id, a.(pending := None,
          outputs := a.outputs[a.pending.value.alias := FlowOutput(child.stage.body, child.name)]))
    case Invoke(id) =>
      var a := n.activations[id];
      Put(n, id, a.(stage := Answered(Answer(d, a.name, FlowInput(a.args, a.outputs)))))
    case Store(id, stored) =>
      var a := n.activations[id];
      var done := Put(n, id, a.(stage := Finished(a.stage.body, true)));
      if Caches(d, a.name) && stored then done.(cache := n.cache[Key(d, a.name, a.args) := a.stage.body]) else done
    case Evict(key) => n.(cache := n.cache - {key})
  }

  /** The place of a child that activation a, number id, calls. */
  function Inside(a: Activation, id: nat): Place {
    Place(a.place.root, a.place.level + 1, id)
  }

  ghost predicate Legal(d: Deployment, n: Net, steps: seq<Step>)
    decreases |steps|, 0
  {
    steps == [] ||
    (Legal(d, n, steps[..|steps| - 1]) && Enabled(d, After(d, n, steps[..|steps| - 1]), steps[|steps| - 1]))
  }

  ghost function After(d: Deployment, n: Net, steps: seq<Step>): Net
    requires Legal(d, n, steps)
    decreases |steps|, 1
  {
    if steps == [] then n else Apply(d, After(d, n, steps[..|steps| - 1]), steps[|steps| - 1])
  }

  // ----- invariant -----

  /** Every entry under the key of a cached flow's request holds that request's reference result. */
  ghost predicate CacheRight(d: Deployment, cache: map<string, Body>) {
    forall f, args | Caches(d, f) && Key(d, f, args) in cache :: Right(d, f, args, cache[Key(d, f, args)])
  }

  ghost predicate OutputsRight(d: Deployment, a: Activation) {
    && a.outputs.Keys <= Children(d, a.name).Keys
    && forall alias | alias in a.outputs :: OutputRight(d, a.name, alias, a.args, a.outputs[alias])
  }

  /** The child a handler waits for runs later in the list, with the arguments the child is due. */
  ghost predicate PendingRight(d: Deployment, all: seq<Activation>, a: Activation) {
    a.pending.Some? ==>
      && a.stage.Gathering?
      && a.pending.value.alias in Children(d, a.name) && a.pending.value.alias !in a.outputs
      && a.pending.value.id < |all|
      && var child := Children(d, a.name)[a.pending.value.alias];
         && !External(d, child.target)
         && all[a.pending.value.id].name == child.target
         && all[a.pending.value.id].request == Mapped(child.argsMap, a.args)
  }

  ghost predicate ActivationRight(d: Deployment, a: Activation) {
    match a.stage
    case Arrived => a.args == a.request && a.outputs == map[] && a.pending.None?
    case Gathering => a.args == Effective(d, a.name, a.request) && OutputsRight(d, a)
    case Answered(body) => a.args == Effective(d, a.name, a.request) && Right(d, a.name, a.request, body)
    case Finished(body, _) => Right(d, a.name, a.request, body)
  }

  ghost predicate Inv(d: Deployment, n: Net) {
    && CacheRight(d, n.cache)
    && (forall id | 0 <= id < |n.activations| :: ActivationRight(d, n.activations[id]))
    && (forall id | 0 <= id < |n.activations| :: PendingRight(d, n.activations, n.activations[id]))
  }

  lemma StoreKeepsCache(d: Deployment, cache: map<string, Body>, f: string, args: Args, body: Body)
    requires InjectiveHash(d) && CacheRight(d, cache) && Caches(d, f) && Right(d, f, args, body)
    ensures CacheRight(d, cache[Key(d, f, args) := body])
  {
    hide Key, InjectiveHash, Acyclic, Caches, Effective;
    var after := cache[Key(d, f, args) := body];
    forall g, b | Caches(d, g) && Key(d, g, b) in after
      ensures Right(d, g, b, after[Key(d, g, b)])
    {
      if Key(d, g, b) == Key(d, f, args) {
        KeyDetermines(d, g, b, f, args);
      }
    }
  }

  /** Replacing one activation by one with the same name and request leaves the others as they were. */
  lemma PutKeepsInv(d: Deployment, n: Net, id: nat, a: Activation)
    requires Inv(d, n) && id < |n.activations|
    requires a.name == n.activations[id].name && a.request == n.activations[id].request
    requires ActivationRight(d, a) && PendingRight(d, n.activations, a)
    ensures Inv(d, Put(n, id, a))
  {
    hide CacheRight, ActivationRight, Children, External, Mapped;
  }

  /** A new activation disturbs no other. */
  lemma SpawnKeepsInv(d: Deployment, n: Net, name: string, request: Args, place: Place)
    requires Inv(d, n)
    ensures Inv(d, n.(activations := n.activations + [New(name, request, place)]))
  {
    hide CacheRight, Children, External, Mapped, OutputsRight, Effective, Right;
  }

  lemma LookKeepsInv(d: Deployment, n: Net, id: nat, found: bool)
    requires Inv(d, n) && Enabled(d, n, Look(id, found))
    ensures Inv(d, Apply(d, n, Look(id, found)))
  {
    var a := n.activations[id];
    var b := Apply(d, n, Look(id, found)).activations[id];
    assert ActivationRight(d, a);
    assert ActivationRight(d, b) by {
      hide Inv, Right, Key, OutputRight, Effective;
      assert found ==> Right(d, a.name, a.args, n.cache[Key(d, a.name, a.args)]) by {
        assert CacheRight(d, n.cache);
      }
    }
    PutKeepsInv(d, n, id, b);
  }

  lemma CallKeepsInv(d: Deployment, n: Net, id: nat, alias: string)
    requires Inv(d, n) && Enabled(d, n, Call(id, alias))
    ensures Inv(d, Apply(d, n, Call(id, alias)))
  {
    hide CacheRight, Right, Effective, Mapped;
    var a := n.activations[id];
    assert ActivationRight(d, a);
    var child := Children(d, a.name)[alias];
    if External(d, child.target) {
      PutKeepsInv(d, n, id, Apply(d, n, Call(id, alias)).activations[id]);
    } else {
      var args := Mapped(child.argsMap, a.args);
      var spawned := n.(activations := n.activations + [New(child.target, args, Inside(a, id))]);
      SpawnKeepsInv(d, n, child.target, args, Inside(a, id));
      var b := a.(pending := Some(Pending(alias, |n.activations|)));
      PutKeepsInv(d, spawned, id, b);
      assert Apply(d, n, Call(id, alias)).activations == Put(spawned, id, b).activations;
    }
  }

  lemma CollectKeepsInv(d: Deployment, n: Net, id: nat)
    requires Inv(d, n) && Enabled(d, n, Collect(id))
    ensures Inv(d, Apply(d, n, Collect(id)))
  {
    hide CacheRight, Right, Effective, Mapped;
    var a := n.activations[id];
    var c := a.pending.value.id;
    assert ActivationRight(d, a) && ActivationRight(d, n.activations[c]) && PendingRight(d, n.activations, a);
    PutKeepsInv(d, n, id, Apply(d, n, Collect(id)).activations[id]);
  }

  lemma InvokeKeepsInv(d: Deployment, n: Net, id: nat)
    requires Inv(d, n) && Enabled(d, n, Invoke(id))
    ensures Inv(d, Apply(d, n, Invoke(id)))
  {
    hide CacheRight, Effective, Right, OutputRight, Answer;
    var a := n.activations[id];
    assert ActivationRight(d, a);
    AnswerRight(d, a.name, a.request, a.outputs);
    PutKeepsInv(d, n, id, Apply(d, n, Invoke(id)).activations[id]);
  }

  lemma StoreKeepsInv(d: Deployment, n: Net, id: nat, stored: bool)
    requires InjectiveHash(d) && Inv(d, n) && Enabled(d, n, Store(id, stored))
    ensures Inv(d, Apply(d, n, Store(id, stored)))
  {
    hide CacheRight, Effective, Right, Key, InjectiveHash;
    var a := n.activations[id];
    assert ActivationRight(d, a);
    PutKeepsInv(d, n, id, a.(stage := Finished(a.stage.body, true)));
    if Caches(d, a.name) && stored {
      KeyStable(d, a.name, a.request);
      StoreKeepsCache(d, n.cache, a.name, a.request, a.stage.body);
    }
  }

  lemma StepKeepsInv(d: Deployment, n: Net, step: Step)
    requires InjectiveHash(d) && Inv(d, n) && Enabled(d, n, step)
    ensures Inv(d, Apply(d, n, step))
  {
    match step
    case Arrive(name, request) =>
      SpawnKeepsInv(d, n, name, request, Place(|n.activations|, 0, |n.activations|));
    case Look(id, found) => LookKeepsInv(d, n, id, found);
    case Call(id, alias) => CallKeepsInv(d, n, id, alias);
    case Collect(id) => CollectKeepsInv(d, n, id);
    case Invoke(id) => InvokeKeepsInv(d, n, id);
    case Store(id, stored) => StoreKeepsInv(d, n, id, stored);
    case Evict(key) =>
  }

  lemma {:induction false} RunsKeepInv(d: Deployment, n: Net, steps: seq<Step>)
    requires InjectiveHash(d) && Inv(d, n) && Legal(d, n, steps)
    ensures Inv(d, After(d, n, steps))
  {
    hide Inv, Enabled, Apply, InjectiveHash;
    if steps == [] {
    } else {
      var front := steps[..|steps| - 1];
      RunsKeepInv(d, n, front);
      StepKeepsInv(d, After(d, n, front), steps[|steps| - 1]);
    }
  }

  /**
    Cache transparency. Whatever requests arrive and however their handlers interleave, with any cache that starts
    right (an empty one does) and any losses and failures of the cache, every reply is the reference result of its
    request; no request for a flow that leads to a cycle is ever answered.
   */
  lemma {:induction false} CacheTransparency(d: Deployment, cache: map<string, Body>, steps: seq<Step>, id: nat)
    requires InjectiveHash(d) && CacheRight(d, cache) && Legal(d, Net(cache, []), steps)
    requires id < |After(d, Net(cache, []), steps).activations|
    requires Replied(After(d, Net(cache, []), steps).activations[id])
    ensures var a := After(d, Net(cache, []), steps).activations[id];
            Acyclic(d, a.name) && a.stage.body == Eval(d, a.name, a.request)
  {
    RunsKeepInv(d, Net(cache, []), steps);
    var a := After(d, Net(cache, []), steps).activations[id];
    assert ActivationRight(d, a);
  }

  lemma StepKeepsRequests(d: Deployment, n: Net, step: Step)
    requires Enabled(d, n, step)
    ensures var after := Apply(d, n, step).activations;
            && |n.activations| <= |after|
            && forall id | 0 <= id < |n.activations| ::
                 after[id].name == n.activations[id].name && after[id].request == n.activations[id].request
    ensures step.Arrive? ==>
              var after := Apply(d, n, step).activations;
              && |after| == |n.activations| + 1
              && after[|n.activations|].name == step.name && after[|n.activations|].request == step.request
  {
    hide Key, Effective, Mapped, Busy;
  }

  /** The handler of the request that arrived with step i keeps its number, its name and its request. */
  lemma {:induction false} HandlerOf(d: Deployment, n: Net, steps: seq<Step>, i: nat) returns (id: nat)
    requires Legal(d, n, steps) && i < |steps| && steps[i].Arrive?
    ensures Legal(d, n, steps[..i]) && id == |After(d, n, steps[..i]).activations|
    ensures var all := After(d, n, steps).activations;
            id < |all| && all[id].name == steps[i].name && all[id].request == steps[i].request
  {
    hide Enabled, Apply;
    var front, last := steps[..|steps| - 1], steps[|steps| - 1];
    StepKeepsRequests(d, After(d, n, front), last);
    if i == |front| {
      assert steps[..i] == front;
      id := |After(d, n, front).activations|;
    } else {
      id := HandlerOf(d, n, front, i);
      assert front[..i] == steps[..i];
    }
  }

  /** Cache transparency for the requests of a run: the reply to each, if there is one, is its reference result. */
  lemma {:induction false} RepliesAreRight(d: Deployment, cache: map<string, Body>, steps: seq<Step>, i: nat)
    returns (id: nat)
    requires InjectiveHash(d) && CacheRight(d, cache) && Legal(d, Net(cache, []), steps)
    requires i < |steps| && steps[i].Arrive?
    ensures id < |After(d, Net(cache, []), steps).activations|
    ensures var a := After(d, Net(cache, []), steps).activations[id];
            Replied(a) ==> Acyclic(d, steps[i].name) && a.stage.body == Eval(d, steps[i].name, steps[i].request)
  {
    hide Legal, After, InjectiveHash, CacheRight, Acyclic, Eval;
    id := HandlerOf(d, Net(cache, []), steps, i);
    if Replied(After(d, Net(cache, []), steps).activations[id]) {
      CacheTransparency(d, cache, steps, id);
    }
  }

  lemma Extend(d: Deployment, n: Net, steps: seq<Step>, step: Step)
    requires Legal(d, n, steps) && Enabled(d, After(d, n, steps), step)
    ensures Legal(d, n, steps + [step]) && After(d, n, steps + [step]) == Apply(d, After(d, n, steps), step)
  {
    hide Enabled, Apply;
    assert (steps + [step])[..|steps|] == steps;
  }

  lemma LegalEmpty(d: Deployment, n: Net)
    ensures Legal(d, n, []) && After(d, n, []) == n
  {
  }

  /** The steps of handlers, as opposed to requests that arrive and entries that vanish. */
  predicate OwnStep(step: Step) {
    !step.Arrive? && !step.Evict?
  }
}
