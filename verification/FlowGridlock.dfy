/**
  The exact number of nested requests that the shared connections can carry: one more can leave all handlers waiting
  for one another (proxy/proxy.go:49-60, 262-288).
 */
module FlowGridlock {
  import opened CacheTypes
  import opened Flows
  import opened FlowConnections
  import opened FlowMachine

  /** A handler that waits for its child, or has nothing left but internal calls to make. */
  ghost predicate Held(d: Deployment, all: seq<Activation>, id: nat)
    requires id < |all|
  {
    var a := all[id];
    && a.stage.Gathering?
    && if a.pending.Some? then a.pending.value.id < |all| && !Replied(all[a.pending.value.id])
       else
         && (forall alias | alias in Children(d, a.name) && alias !in a.outputs ::
             !External(d, Children(d, a.name)[alias].target))
         && exists alias :: alias in Children(d, a.name) && alias !in a.outputs
  }

  ghost predicate AllHeld(d: Deployment, all: seq<Activation>) {
    forall id | 0 <= id < |all| :: Held(d, all, id)
  }

  /** When everybody waits or wants to call, and no connection is free, nobody can go on. */
  lemma {:induction false} FullIsStuck(d: Deployment, n: Net)
    requires AllHeld(d, n.activations) && n.activations != [] && |Busy(n.activations)| >= d.connections
    ensures Stuck(d, n)
  {
    assert Held(d, n.activations, 0);
    forall step | OwnStep(step)
      ensures !Enabled(d, n, step)
    {
      if step.id < |n.activations| {
        assert Held(d, n.activations, step.id);
      }
    }
  }

  // ----- how a run gets there -----

  /** The requests of a run, all for f. */
  ghost predicate RequestsFor(steps: seq<Step>, f: string) {
    forall i | 0 <= i < |steps| && steps[i].Arrive? :: steps[i].name == f
  }

  function Arrivals(steps: seq<Step>): nat {
    if steps == [] then 0 else Arrivals(steps[..|steps| - 1]) + if steps[|steps| - 1].Arrive? then 1 else 0
  }

  lemma {:induction false} AppendRequest(steps: seq<Step>, step: Step, f: string)
    requires RequestsFor(steps, f) && (step.Arrive? ==> step.name == f)
    ensures RequestsFor(steps + [step], f)
    ensures Arrivals(steps + [step]) == Arrivals(steps) + if step.Arrive? then 1 else 0
  {
    assert (steps + [step])[..|steps|] == steps;
  }

  /** A run of requests for f from an empty net, in which all handlers but possibly the last are held. */
  ghost predicate Filling(d: Deployment, f: string, steps: seq<Step>, n: Net, arrivals: nat, busy: nat) {
    && Legal(d, Net(map[], []), steps) && After(d, Net(map[], []), steps) == n
    && RequestsFor(steps, f) && Arrivals(steps) == arrivals && |Busy(n.activations)| == busy
  }

  ghost predicate OthersHeld(d: Deployment, all: seq<Activation>) {
    all != [] && forall id | 0 <= id < |all| - 1 :: Held(d, all, id)
  }

  lemma {:induction false} ExtendFilling(d: Deployment, f: string, steps: seq<Step>, n: Net, arrivals: nat,
      busy: nat, step: Step)
    requires Filling(d, f, steps, n, arrivals, busy) && Enabled(d, n, step) && (step.Arrive? ==> step.name == f)
    ensures Filling(d, f, steps + [step], Apply(d, n, step), arrivals + (if step.Arrive? then 1 else 0),
                    |Busy(Apply(d, n, step).activations)|)
  {
    hide Enabled, Apply, Busy, Legal, After, RequestsFor, Arrivals;
    Extend(d, Net(map[], []), steps, step);
    AppendRequest(steps, step, f);
  }

  function Newest(all: seq<Activation>): Activation
    requires all != []
  {
    all[|all| - 1]
  }

  ghost predicate OutputsExternal(d: Deployment, a: Activation) {
    forall alias | alias in a.outputs && alias in Children(d, a.name) :: External(d, Children(d, a.name)[alias].target)
  }

  /** The last handler has missed the cache and called no internal child yet. */
  ghost predicate NewestReady(d: Deployment, all: seq<Activation>)
    requires all != []
  {
    Newest(all).stage.Gathering? && Newest(all).pending.None? && OutputsExternal(d, Newest(all))
  }

  lemma {:induction false} ReplaceNewest(d: Deployment, all: seq<Activation>, a: Activation)
    requires OthersHeld(d, all) && !Replied(a) && a.pending.None? && Newest(all).pending.None?
    ensures OthersHeld(d, all[|all| - 1 := a]) && Busy(all[|all| - 1 := a]) == Busy(all)
  {
    var after := all[|all| - 1 := a];
    forall id | 0 <= id < |after| - 1
      ensures Held(d, after, id)
    {
      assert Held(d, all, id);
    }
  }

  lemma {:induction false} LookNewest(d: Deployment, f: string, steps: seq<Step>, n: Net, arrivals: nat, busy: nat)
    returns (more: seq<Step>, after: Net)
    requires Filling(d, f, steps, n, arrivals, busy) && OthersHeld(d, n.activations)
    requires Newest(n.activations).stage.Arrived? && Newest(n.activations).pending.None?
        && Newest(n.activations).outputs == map[]
    ensures Filling(d, f, more, after, arrivals, busy) && OthersHeld(d, after.activations)
    ensures NewestReady(d, after.activations) && Newest(after.activations).name == Newest(n.activations).name
  {
    hide Filling, Held, Busy, Effective;
    var step := Look(|n.activations| - 1, false);
    more, after := steps + [step], Apply(d, n, step);
    ExtendFilling(d, f, steps, n, arrivals, busy, step);
    ReplaceNewest(d, n.activations, Newest(after.activations));
    FillingBusy(d, f, steps, n, arrivals, busy);
  }

  lemma FillingBusy(d: Deployment, f: string, steps: seq<Step>, n: Net, arrivals: nat, busy: nat)
    requires Filling(d, f, steps, n, arrivals, busy)
    ensures |Busy(n.activations)| == busy
  {
  }

  lemma {:induction false} ExternalCall(d: Deployment, n: Net, alias: string)
    requires OthersHeld(d, n.activations) && NewestReady(d, n.activations)
    requires var a := Newest(n.activations);
             alias in Children(d, a.name) && alias !in a.outputs && External(d, Children(d, a.name)[alias].target)
    ensures var step := Call(|n.activations| - 1, alias);
            && Enabled(d, n, step)
            && var all := Apply(d, n, step).activations;
               && OthersHeld(d, all) && NewestReady(d, all) && Busy(all) == Busy(n.activations)
               && Newest(all).name == Newest(n.activations).name
               && Newest(all).outputs.Keys == Newest(n.activations).outputs.Keys + {alias}
  {
    hide Held, Mapped, Busy;
    ReplaceNewest(d, n.activations, Newest(Apply(d, n, Call(|n.activations| - 1, alias)).activations));
  }

  /** The external children never wait, so they are all called. */
  lemma {:induction false} CallExternals(d: Deployment, f: string, steps: seq<Step>, n: Net, arrivals: nat, busy: nat)
    returns (more: seq<Step>, after: Net)
    requires Filling(d, f, steps, n, arrivals, busy) && OthersHeld(d, n.activations) && NewestReady(d, n.activations)
    ensures Filling(d, f, more, after, arrivals, busy) && OthersHeld(d, after.activations)
    ensures NewestReady(d, after.activations) && Newest(after.activations).name == Newest(n.activations).name
    ensures var a := Newest(after.activations);
            forall alias | alias in Children(d, a.name) && alias !in a.outputs ::
                !External(d, Children(d, a.name)[alias].target)
    decreases Children(d, Newest(n.activations).name).Keys - Newest(n.activations).outputs.Keys
  {
    hide Filling, Held, NewestReady, Busy, Enabled, Apply;
    var a := Newest(n.activations);
    if alias :| alias in Children(d, a.name) && alias !in a.outputs && External(d, Children(d, a.name)[alias].target) {
      var step := Call(|n.activations| - 1, alias);
      ExternalCall(d, n, alias);
      ExtendFilling(d, f, steps, n, arrivals, busy, step);
      FillingBusy(d, f, steps, n, arrivals, busy);
      more, after := CallExternals(d, f, steps + [step], Apply(d, n, step), arrivals, busy);
    } else {
      more, after := steps, n;
    }
  }

  lemma BusyCall(all: seq<Activation>, a: Activation, b: Activation)
    requires all != [] && Newest(all).pending.None? && a.pending.Some? && b.pending.None?
    ensures |Busy(all[|all| - 1 := a] + [b])| == |Busy(all)| + 1
  {
    assert Busy(all[|all| - 1 := a] + [b]) == Busy(all) + {|all| - 1};
  }

  lemma {:induction false} SpawnHeld(d: Deployment, all: seq<Activation>, a: Activation, b: Activation)
    requires OthersHeld(d, all) && !Replied(b)
    requires a.stage.Gathering? && a.pending.Some? && a.pending.value.id == |all|
    ensures OthersHeld(d, all[|all| - 1 := a] + [b])
  {
    var after := all[|all| - 1 := a] + [b];
    forall id | 0 <= id < |after| - 1
      ensures Held(d, after, id)
    {
      if id < |all| - 1 {
        assert Held(d, all, id);
      }
    }
  }

  lemma {:induction false} SpawnFromNewest(d: Deployment, n: Net, alias: string)
    requires OthersHeld(d, n.activations) && NewestReady(d, n.activations)
    requires Enabled(d, n, Call(|n.activations| - 1, alias))
    requires !External(d, Children(d, Newest(n.activations).name)[alias].target)
    ensures var all := Apply(d, n, Call(|n.activations| - 1, alias)).activations;
            && OthersHeld(d, all) && |Busy(all)| == |Busy(n.activations)| + 1
            && Newest(all).name == Children(d, Newest(n.activations).name)[alias].target
            && Newest(all).stage.Arrived? && Newest(all).pending.None? && Newest(all).outputs == map[]
  {
    hide Mapped, Held, Busy, OutputsExternal;
    var last := |n.activations| - 1;
    var all := Apply(d, n, Call(last, alias)).activations;
    BusyCall(n.activations, all[last], Newest(all));
    SpawnHeld(d, n.activations, all[last], Newest(all));
    assert all == n.activations[last := all[last]] + [Newest(all)];
  }

  /** The newest handler calls k levels down and then waits like all others. */
  lemma {:induction false} Sink(d: Deployment, f: string, steps: seq<Step>, n: Net, arrivals: nat, busy: nat, k: nat)
    returns (more: seq<Step>, after: Net)
    requires Filling(d, f, steps, n, arrivals, busy) && OthersHeld(d, n.activations)
    requires Newest(n.activations).stage.Arrived? && Newest(n.activations).pending.None?
        && Newest(n.activations).outputs == map[]
    requires Nests(d, Newest(n.activations).name, k + 1) && busy + k <= d.connections
    ensures Filling(d, f, more, after, arrivals, busy + k)
    ensures AllHeld(d, after.activations) && after.activations != []
    decreases k
  {
    hide Filling, Busy, Nests, Enabled, Apply;
    var mid;
    more, mid := LookNewest(d, f, steps, n, arrivals, busy);
    more, mid := CallExternals(d, f, more, mid, arrivals, busy);
    var a := Newest(mid.activations);
    NestsChild(d, a.name, k + 1);
    var alias :| alias in Children(d, a.name) && !External(d, Children(d, a.name)[alias].target)
                 && Nests(d, Children(d, a.name)[alias].target, k);
    if k == 0 {
      after := mid;
      assert Held(d, after.activations, |after.activations| - 1);
    } else {
      var step := Call(|mid.activations| - 1, alias);
      FillingBusy(d, f, more, mid, arrivals, busy);
      assert Enabled(d, mid, step) by {
        CallNewest(d, mid, alias);
      }
      SpawnFromNewest(d, mid, alias);
      ExtendFilling(d, f, more, mid, arrivals, busy, step);
      more, after := Sink(d, f, more + [step], Apply(d, mid, step), arrivals, busy + 1, k - 1);
    }
  }

  lemma CallNewest(d: Deployment, n: Net, alias: string)
    requires n.activations != [] && NewestReady(d, n.activations) && |Busy(n.activations)| < d.connections
    requires alias in Children(d, Newest(n.activations).name)
    requires !External(d, Children(d, Newest(n.activations).name)[alias].target)
    ensures Enabled(d, n, Call(|n.activations| - 1, alias))
  {
  }

  lemma {:induction false} ArriveNewest(d: Deployment, f: string, n: Net)
    requires AllHeld(d, n.activations)
    ensures var all := Apply(d, n, Arrive(f, map[])).activations;
            && OthersHeld(d, all) && Busy(all) == Busy(n.activations) && Newest(all).name == f
            && Newest(all).stage.Arrived? && Newest(all).pending.None? && Newest(all).outputs == map[]
  {
    var all := Apply(d, n, Arrive(f, map[])).activations;
    forall id | 0 <= id < |all| - 1
      ensures Held(d, all, id)
    {
      assert Held(d, n.activations, id);
    }
  }

  /** Further requests, each of which sinks as far as it can, until no connection is free. */
  lemma {:induction false} FillUp(d: Deployment, f: string, h: nat, steps: seq<Step>, n: Net, arrivals: nat,
      busy: nat, left: nat)
    returns (more: seq<Step>, after: Net, made: nat)
    requires Filling(d, f, steps, n, arrivals, busy) && AllHeld(d, n.activations)
    requires h > 0 && Nests(d, f, h) && busy <= d.connections && left * (h - 1) >= d.connections - busy
    requires n.activations == [] ==> left > 0
    ensures Filling(d, f, more, after, made, d.connections) && made <= arrivals + left
    ensures AllHeld(d, after.activations) && after.activations != []
    decreases left
  {
    hide Filling, Busy, Nests, AllHeld, OthersHeld;
    if busy == d.connections && n.activations != [] {
      more, after, made := steps, n, arrivals;
    } else {
      var k := if h - 1 <= d.connections - busy then h - 1 else d.connections - busy;
      var step := Arrive(f, map[]);
      ArriveNewest(d, f, n);
      FillingBusy(d, f, steps, n, arrivals, busy);
      ExtendFilling(d, f, steps, n, arrivals, busy, step);
      NestsLess(d, f, h, k + 1);
      var mid;
      more, mid := Sink(d, f, steps + [step], Apply(d, n, step), arrivals + 1, busy, k);
      OneLess(left, h - 1);
      more, after, made := FillUp(d, f, h, more, mid, arrivals + 1, busy + k, left - 1);
    }
  }

  lemma OneLess(left: nat, m: nat)
    ensures left == 0 ==> left * m == 0
    ensures left > 0 ==> left * m == (left - 1) * m + m && (left - 1) * m >= 0
  {
  }

  /** Enough requests for a flow that nests h calls can leave every handler waiting. */
  lemma {:induction false} Gridlock(d: Deployment, f: string, most: nat, h: nat) returns (steps: seq<Step>)
    requires most > 0 && h > 0 && Nests(d, f, h) && most * (h - 1) >= d.connections
    ensures Legal(d, Net(map[], []), steps) && RequestsFor(steps, f) && Arrivals(steps) <= most
    ensures Stuck(d, After(d, Net(map[], []), steps))
  {
    LegalEmpty(d, Net(map[], []));
    assert Busy([]) == {};
    assert Filling(d, f, [], Net(map[], []), 0, 0);
    var after, made;
    steps, after, made := FillUp(d, f, h, [], Net(map[], []), 0, 0, most);
    FullIsStuck(d, after);
  }

  // ----- the exact limit -----

  ghost function Roots(all: seq<Activation>): set<nat> {
    set id: nat | id < |all| && all[id].place.level == 0
  }

  ghost predicate RootsNamed(all: seq<Activation>, f: string) {
    forall id | id in Roots(all) :: all[id].name == f
  }

  lemma {:induction false} StepRoots(d: Deployment, n: Net, step: Step, f: string)
    requires Enabled(d, n, step) && RootsNamed(n.activations, f) && (step.Arrive? ==> step.name == f)
    ensures var all := Apply(d, n, step).activations;
            RootsNamed(all, f) && |Roots(all)| == |Roots(n.activations)| + if step.Arrive? then 1 else 0
  {
    hide Key, Effective, Mapped, Busy;
    var all := Apply(d, n, step).activations;
    if step.Arrive? {
      assert Roots(all) == Roots(n.activations) + {|n.activations|};
    } else {
      assert Roots(all) == Roots(n.activations);
    }
  }

  lemma {:induction false} RunRoots(d: Deployment, steps: seq<Step>, f: string)
    requires Legal(d, Net(map[], []), steps) && RequestsFor(steps, f)
    ensures var all := After(d, Net(map[], []), steps).activations;
            RootsNamed(all, f) && |Roots(all)| == Arrivals(steps)
  {
    hide Enabled, Apply, Roots;
    var start := Net(map[], []);
    if steps == [] {
      assert Roots([]) == {} by {
        NoRoots();
      }
    } else {
      var front, last := steps[..|steps| - 1], steps[|steps| - 1];
      assert RequestsFor(front, f) by {
        assert forall i | 0 <= i < |front| :: front[i] == steps[i];
      }
      RunRoots(d, front, f);
      StepRoots(d, After(d, start, front), last, f);
    }
  }

  lemma NoRoots()
    ensures Roots([]) == {}
  {
  }

  /** A run of at most `most` requests for f. */
  ghost predicate Carries(d: Deployment, f: string, most: nat, steps: seq<Step>) {
    Legal(d, Net(map[], []), steps) && RequestsFor(steps, f) && Arrivals(steps) <= most
  }

  lemma {:induction false} RunLoaded(d: Deployment, f: string, most: nat, h: nat, steps: seq<Step>)
    requires Carries(d, f, most, steps) && !Nests(d, f, h + 1)
    ensures var all := After(d, Net(map[], []), steps).activations; Tree(d, all) && Loaded(d, all, most, h)
  {
    RunRoots(d, steps, f);
    assert Tree(d, []);
    RunsKeepTree(d, Net(map[], []), steps);
    hide Tree, Legal, After, Nests;
    var all := After(d, Net(map[], []), steps).activations;
    assert Open(all) <= Roots(all);
    Parts(Roots(all), Open(all));
  }

  /**
    The exact limit. Requests for a flow that nests h calls, at most `most` of them, never leave all handlers waiting
    if and only if holding h - 1 connections for each of them leaves one free.
   */
  lemma {:induction false} ConnectionsSuffice(d: Deployment, f: string, most: nat, h: nat)
    requires most > 0 && Nests(d, f, h) && !Nests(d, f, h + 1)
    ensures most * (h - 1) < d.connections <==>
              forall steps | Carries(d, f, most, steps) :: !Stuck(d, After(d, Net(map[], []), steps))
  {
    hide Nests, Stuck, Tree, Loaded;
    if most * (h - 1) < d.connections {
      forall steps | Carries(d, f, most, steps)
        ensures !Stuck(d, After(d, Net(map[], []), steps))
      {
        RunLoaded(d, f, most, h, steps);
        NeverStuck(d, After(d, Net(map[], []), steps), most, h);
      }
    } else {
      var steps := Gridlock(d, f, most, h);
      assert Carries(d, f, most, steps);
    }
  }

  /** A request on its own never waits forever if and only if its calls nest no deeper than there are connections. */
  lemma {:induction false} LoneRequest(d: Deployment, f: string)
    ensures !Nests(d, f, d.connections + 1) <==>
              forall steps | Carries(d, f, 1, steps) :: !Stuck(d, After(d, Net(map[], []), steps))
  {
    hide Nests, Stuck, Tree, Loaded;
    if !Nests(d, f, d.connections + 1) {
      forall steps | Carries(d, f, 1, steps)
        ensures !Stuck(d, After(d, Net(map[], []), steps))
      {
        RunLoaded(d, f, 1, d.connections, steps);
        NeverStuck(d, After(d, Net(map[], []), steps), 1, d.connections);
      }
    } else {
      var steps := Gridlock(d, f, 1, d.connections + 1);
      assert Carries(d, f, 1, steps);
    }
  }
}
