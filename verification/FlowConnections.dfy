/**
  Nested flow requests compete for the connections of one HTTP client. When handlers can always go on, and when they
  wait for one another until the client gives up (proxy/proxy.go:49-60, 262-288).
 */
module FlowConnections {
  import opened CacheTypes
  import opened Flows
  import opened FlowMachine

  // ----- the tree of handlers -----

  ghost predicate Rooted(all: seq<Activation>) {
    forall i | 0 <= i < |all| ::
      all[i].place.root < |all| && (all[i].place.level == 0 ==> all[i].place.root == i)
  }

  /** Who waits is gathering, for a handler inside its own call. */
  ghost predicate Waiting(d: Deployment, all: seq<Activation>) {
    forall i | 0 <= i < |all| && all[i].pending.Some? ::
      && all[i].stage.Gathering? && Nests(d, all[i].name, 1)
      && all[i].pending.value.id < |all| && all[all[i].pending.value.id].place == Inside(all[i], i)
  }

  ghost predicate WaitedFor(all: seq<Activation>, i: nat)
    requires i < |all|
  {
    var p := all[i].place.caller;
    && p < |all| && all[p].pending.Some? && all[p].pending.value.id == i
    && all[i].place == Inside(all[p], p)
  }

  /** A child that has not replied is waited for. */
  ghost predicate Awaited(all: seq<Activation>) {
    forall i | 0 <= i < |all| && !Replied(all[i]) && all[i].place.level > 0 :: WaitedFor(all, i)
  }

  ghost predicate SamePlace(a: Activation, b: Activation) {
    a.place.root == b.place.root && a.place.level == b.place.level
  }

  /** Of the handlers at one distance from one request, at most one has not replied. */
  ghost predicate Separate(all: seq<Activation>) {
    forall i, j | 0 <= i < |all| && 0 <= j < |all| && !Replied(all[i]) && !Replied(all[j]) && SamePlace(all[i], all[j]) ::
      i == j
  }

  /** What nests below a handler nests deeper below the request that caused it. */
  ghost predicate Shallow(d: Deployment, all: seq<Activation>)
    requires Rooted(all)
  {
    forall i, k: nat | 0 <= i < |all| && Nests(d, all[i].name, k) ::
      Nests(d, all[all[i].place.root].name, k + all[i].place.level)
  }

  ghost predicate Tree(d: Deployment, all: seq<Activation>) {
    Rooted(all) && Waiting(d, all) && Awaited(all) && Separate(all) && Shallow(d, all)
  }

  /** One handler goes on in its place: replies, or has read the reply it waited for. */
  ghost predicate GoesOn(all: seq<Activation>, id: nat, a: Activation)
    requires id < |all|
  {
    && a.name == all[id].name && a.place == all[id].place && (Replied(all[id]) ==> Replied(a))
    && (a.pending.Some? ==> a.pending == all[id].pending && a.stage.Gathering?)
    && (a.pending.None? && all[id].pending.Some? && all[id].pending.value.id < |all| ==>
        Replied(all[all[id].pending.value.id]))
  }

  lemma {:induction false} PutKeepsAwaited(all: seq<Activation>, id: nat, a: Activation)
    requires Awaited(all) && id < |all| && GoesOn(all, id, a)
    ensures Awaited(all[id := a])
  {
    var after := all[id := a];
    forall i | 0 <= i < |after| && !Replied(after[i]) && after[i].place.level > 0
      ensures WaitedFor(after, i)
    {
      assert WaitedFor(all, i);
    }
  }

  lemma {:induction false} PutKeepsSeparate(all: seq<Activation>, id: nat, a: Activation)
    requires Separate(all) && id < |all| && GoesOn(all, id, a)
    ensures Separate(all[id := a])
  {
    var after := all[id := a];
    forall i, j | 0 <= i < |after| && 0 <= j < |after| && !Replied(after[i]) && !Replied(after[j])
                  && SamePlace(after[i], after[j])
      ensures i == j
    {
      assert SamePlace(all[i], all[j]) && !Replied(all[i]) && !Replied(all[j]);
    }
  }

  lemma {:induction false} PutKeepsShallow(d: Deployment, all: seq<Activation>, id: nat, a: Activation)
    requires Rooted(all) && Shallow(d, all) && id < |all| && GoesOn(all, id, a)
    ensures Rooted(all[id := a]) && Shallow(d, all[id := a])
  {
    hide Nests;
    var after := all[id := a];
    forall i, k: nat | 0 <= i < |after| && Nests(d, after[i].name, k)
      ensures Nests(d, after[after[i].place.root].name, k + after[i].place.level)
    {
      assert Nests(d, all[i].name, k);
    }
  }

  lemma PutKeepsTree(d: Deployment, all: seq<Activation>, id: nat, a: Activation)
    requires Tree(d, all) && id < |all| && GoesOn(all, id, a)
    ensures Tree(d, all[id := a])
  {
    PutKeepsAwaited(all, id, a);
    PutKeepsSeparate(all, id, a);
    PutKeepsShallow(d, all, id, a);
    hide Nests, Awaited, Separate, Shallow;
  }

  lemma {:induction false} ArriveKeepsTree(d: Deployment, all: seq<Activation>, name: string, request: Args)
    requires Tree(d, all)
    ensures Tree(d, all + [New(name, request, Place(|all|, 0, |all|))])
  {
    hide Nests;
    var after := all + [New(name, request, Place(|all|, 0, |all|))];
    assert forall i | 0 <= i < |all| :: after[i] == all[i];
    forall i | 0 <= i < |after| && !Replied(after[i]) && after[i].place.level > 0
      ensures WaitedFor(after, i)
    {
      assert WaitedFor(all, i);
    }
    forall i, k: nat | 0 <= i < |after| && Nests(d, after[i].name, k)
      ensures Nests(d, after[after[i].place.root].name, k + after[i].place.level)
    {
      if i < |all| {
        assert Nests(d, all[i].name, k);
      }
    }
  }

  /** The handlers after id, at rest so far, calls its internal child `alias`. */
  ghost function Called(d: Deployment, all: seq<Activation>, id: nat, alias: string): seq<Activation>
    requires id < |all| && alias in Children(d, all[id].name)
  {
    var a, child := all[id], Children(d, all[id].name)[alias];
    all[id := a.(pending := Some(Pending(alias, |all|)))]
        + [New(child.target, Mapped(child.argsMap, a.args), Inside(a, id))]
  }

  lemma {:induction false} CallKeepsShallow(d: Deployment, all: seq<Activation>, id: nat, alias: string)
    requires Rooted(all) && Shallow(d, all) && id < |all| && alias in Children(d, all[id].name)
    requires !External(d, Children(d, all[id].name)[alias].target)
    ensures Rooted(Called(d, all, id, alias)) && Shallow(d, Called(d, all, id, alias))
  {
    var after := Called(d, all, id, alias);
    var target := Children(d, all[id].name)[alias].target;
    assert Calls(d, all[id].name, target);
    hide Mapped, Calls;
    forall i, k: nat | 0 <= i < |after| && Nests(d, after[i].name, k)
      ensures Nests(d, after[after[i].place.root].name, k + after[i].place.level)
    {
      if i < |all| {
        assert Nests(d, all[i].name, k);
      } else {
        assert Nests(d, all[id].name, k + 1);
      }
    }
  }

  /** A handler at rest has no unanswered child, so nobody is where its next child will be. */
  lemma {:induction false} PlaceFree(d: Deployment, all: seq<Activation>, id: nat, i: nat)
    requires Awaited(all) && Separate(all) && Waiting(d, all) && id < |all| && i < |all|
    requires all[id].stage.Gathering? && all[id].pending.None? && !Replied(all[i])
    ensures all[i].place.root != all[id].place.root || all[i].place.level != all[id].place.level + 1
  {
    hide Nests;
    if all[i].place.level > 0 {
      assert WaitedFor(all, i);
      var p := all[i].place.caller;
      assert p != id && !Replied(all[p]);
      assert !SamePlace(all[p], all[id]);
    }
  }

  lemma {:induction false} CallKeepsSeparate(d: Deployment, all: seq<Activation>, id: nat, alias: string)
    requires Tree(d, all) && id < |all| && alias in Children(d, all[id].name)
    requires all[id].stage.Gathering? && all[id].pending.None?
    ensures Separate(Called(d, all, id, alias))
  {
    hide Nests, Shallow, Mapped;
    forall i | 0 <= i < |all| && !Replied(all[i])
      ensures all[i].place.root != all[id].place.root || all[i].place.level != all[id].place.level + 1
    {
      PlaceFree(d, all, id, i);
    }
    hide Waiting, Awaited;
    var after := Called(d, all, id, alias);
    forall i, j | 0 <= i < |after| && 0 <= j < |after| && !Replied(after[i]) && !Replied(after[j])
                  && SamePlace(after[i], after[j])
      ensures i == j
    {
      if i < |all| && j < |all| {
        assert SamePlace(all[i], all[j]) && !Replied(all[i]) && !Replied(all[j]);
      }
    }
  }

  lemma {:induction false} CallKeepsAwaited(d: Deployment, all: seq<Activation>, id: nat, alias: string)
    requires Awaited(all) && id < |all| && alias in Children(d, all[id].name)
    requires all[id].stage.Gathering? && all[id].pending.None?
    ensures Awaited(Called(d, all, id, alias))
  {
    var after := Called(d, all, id, alias);
    forall i | 0 <= i < |after| && !Replied(after[i]) && after[i].place.level > 0
      ensures WaitedFor(after, i)
    {
      if i < |all| {
        assert WaitedFor(all, i);
      }
    }
  }

  lemma CallNests(d: Deployment, f: string, alias: string)
    requires alias in Children(d, f) && !External(d, Children(d, f)[alias].target)
    ensures Nests(d, f, 1)
  {
    var target := Children(d, f)[alias].target;
    assert Calls(d, f, target) && Nests(d, target, 0);
  }

  lemma {:induction false} CallKeepsTree(d: Deployment, all: seq<Activation>, id: nat, alias: string)
    requires Tree(d, all) && id < |all| && alias in Children(d, all[id].name)
    requires !External(d, Children(d, all[id].name)[alias].target)
    requires all[id].stage.Gathering? && all[id].pending.None?
    ensures Tree(d, Called(d, all, id, alias))
  {
    CallKeepsShallow(d, all, id, alias);
    CallKeepsSeparate(d, all, id, alias);
    CallKeepsAwaited(d, all, id, alias);
    CallNests(d, all[id].name, alias);
    hide Nests, Shallow, Separate, Awaited, Rooted, Mapped;
  }

  lemma StepKeepsTree(d: Deployment, n: Net, step: Step)
    requires Tree(d, n.activations) && Enabled(d, n, step)
    ensures Tree(d, Apply(d, n, step).activations)
  {
    hide Rooted, Awaited, Separate, Shallow, Mapped, Key, Effective, Nests;
    var all := n.activations;
    match step
    case Arrive(name, request) => ArriveKeepsTree(d, all, name, request);
    case Look(id, _) => PutKeepsTree(d, all, id, Apply(d, n, step).activations[id]);
    case Call(id, alias) =>
      if External(d, Children(d, all[id].name)[alias].target) {
        PutKeepsTree(d, all, id, Apply(d, n, step).activations[id]);
      } else {
        CallKeepsTree(d, all, id, alias);
      }
    case Collect(id) => PutKeepsTree(d, all, id, Apply(d, n, step).activations[id]);
    case Invoke(id) => PutKeepsTree(d, all, id, Apply(d, n, step).activations[id]);
    case Store(id, _) => PutKeepsTree(d, all, id, Apply(d, n, step).activations[id]);
    case Evict(_) =>
  }

  lemma {:induction false} RunsKeepTree(d: Deployment, n: Net, steps: seq<Step>)
    requires Tree(d, n.activations) && Legal(d, n, steps)
    ensures Tree(d, After(d, n, steps).activations)
  {
    hide Tree, Enabled, Apply;
    if steps == [] {
    } else {
      var front := steps[..|steps| - 1];
      RunsKeepTree(d, n, front);
      StepKeepsTree(d, After(d, n, front), steps[|steps| - 1]);
    }
  }

  // ----- when handlers can always go on -----

  ghost predicate AllFinished(n: Net) {
    forall id | 0 <= id < |n.activations| :: n.activations[id].stage.Finished?
  }

  /** Some handler is not done, and none can take a step. */
  ghost predicate Stuck(d: Deployment, n: Net) {
    !AllFinished(n) && forall step | OwnStep(step) :: !Enabled(d, n, step)
  }

  /** Requests from outside that have no reply yet. */
  ghost function Open(all: seq<Activation>): set<nat> {
    set id: nat | id < |all| && all[id].place.level == 0 && !Replied(all[id])
  }

  /** At most `most` requests are open, and their calls nest at most h deep. */
  ghost predicate Loaded(d: Deployment, all: seq<Activation>, most: nat, h: nat) {
    |Open(all)| <= most && forall id | id in Open(all) :: !Nests(d, all[id].name, h + 1)
  }

  /** A handler without reply works for an open request. */
  lemma {:induction false} RootOpen(d: Deployment, all: seq<Activation>, id: nat)
    requires Tree(d, all) && id < |all| && !Replied(all[id])
    ensures all[id].place.root in Open(all)
    decreases all[id].place.level
  {
    hide Shallow, Separate, Nests;
    if all[id].place.level > 0 {
      assert WaitedFor(all, id);
      RootOpen(d, all, all[id].place.caller);
    }
  }

  lemma {:induction false} LevelBounded(d: Deployment, all: seq<Activation>, id: nat, most: nat, h: nat, k: nat)
    requires Tree(d, all) && Loaded(d, all, most, h) && id < |all| && !Replied(all[id]) && Nests(d, all[id].name, k)
    ensures all[id].place.level + k <= h
  {
    RootOpen(d, all, id);
    var root := all[id].place.root;
    hide Nests, Awaited, Separate, Waiting;
    assert Nests(d, all[root].name, k + all[id].place.level);
    if all[id].place.level + k > h {
      NestsLess(d, all[root].name, k + all[id].place.level, h + 1);
    }
  }

  /** In a stuck state every handler that is not done has an internal call to make or to wait for. */
  lemma {:induction false} StuckHandler(d: Deployment, n: Net, id: nat)
    requires Tree(d, n.activations) && Stuck(d, n) && id < |n.activations| && !n.activations[id].stage.Finished?
    ensures var a := n.activations[id];
            && a.stage.Gathering? && Nests(d, a.name, 1)
            && (a.pending.Some? ==> !Replied(n.activations[a.pending.value.id]))
            && (a.pending.None? ==> |Busy(n.activations)| >= d.connections)
  {
    hide Rooted, Awaited, Separate, Shallow, Nests, Key;
    var a := n.activations[id];
    assert !Enabled(d, n, Look(id, false)) && !Enabled(d, n, Store(id, true));
    assert !Enabled(d, n, Collect(id)) && !Enabled(d, n, Invoke(id));
    if a.pending.None? {
      var alias :| alias in Children(d, a.name) && alias !in a.outputs;
      assert !Enabled(d, n, Call(id, alias));
      CallNests(d, a.name, alias);
    }
  }

  /** Following the calls from any handler that is not done leads to one that waits for a connection. */
  lemma {:induction false} StuckIsFull(d: Deployment, n: Net, id: nat, most: nat, h: nat)
    requires Tree(d, n.activations) && Stuck(d, n) && Loaded(d, n.activations, most, h)
    requires id < |n.activations| && !n.activations[id].stage.Finished?
    ensures |Busy(n.activations)| >= d.connections
    decreases h - n.activations[id].place.level
  {
    StuckHandler(d, n, id);
    LevelBounded(d, n.activations, id, most, h, 1);
    hide Rooted, Awaited, Separate, Shallow, Nests, Stuck, Loaded, Busy;
    var a := n.activations[id];
    if a.pending.Some? {
      StuckIsFull(d, n, a.pending.value.id, most, h);
    }
  }

  /** Handlers below the given requests at distances under m, each at a place of its own. */
  ghost predicate Placed(all: seq<Activation>, ids: set<nat>, roots: set<nat>, m: nat) {
    && (forall i | i in ids :: i < |all| && all[i].place.root in roots && all[i].place.level < m)
    && (forall i, j | i in ids && j in ids && SamePlace(all[i], all[j]) :: i == j)
  }

  ghost function Above(all: seq<Activation>, ids: set<nat>, m: nat): set<nat>
    requires forall i | i in ids :: i < |all|
  {
    set i | i in ids && all[i].place.level < m
  }

  lemma LowPlaced(all: seq<Activation>, ids: set<nat>, roots: set<nat>, m: nat)
    requires Placed(all, ids, roots, m) && m > 0
    ensures Placed(all, Above(all, ids, m - 1), roots, m - 1)
  {
  }

  lemma {:induction false} TopCount(all: seq<Activation>, ids: set<nat>, roots: set<nat>, m: nat)
    requires Placed(all, ids, roots, m) && m > 0
    ensures |ids - Above(all, ids, m - 1)| <= |roots|
  {
    var top := ids - Above(all, ids, m - 1);
    forall i, j | i in top && j in top && all[i].place.root == all[j].place.root
      ensures i == j
    {
      assert SamePlace(all[i], all[j]);
    }
    RootsCount(all, top, roots);
  }

  lemma Parts(ids: set<nat>, low: set<nat>)
    requires low <= ids
    ensures |ids| == |low| + |ids - low|
  {
    assert ids == low + (ids - low);
  }

  lemma {:induction false} PlacesCount(all: seq<Activation>, ids: set<nat>, roots: set<nat>, m: nat)
    requires Placed(all, ids, roots, m)
    ensures |ids| <= Times(|roots|, m)
  {
    if m == 0 {
      assert ids == {};
    } else {
      var low := Above(all, ids, m - 1);
      assert low <= ids;
      LowPlaced(all, ids, roots, m);
      TopCount(all, ids, roots, m);
      hide Times, Placed, Above;
      PlacesCount(all, low, roots, m - 1);
      Parts(ids, low);
      OneMore(|roots|, m);
    }
  }

  function Times(x: nat, m: nat): nat {
    x * m
  }

  lemma OneMore(x: nat, m: nat)
    requires m > 0
    ensures Times(x, m) == Times(x, m - 1) + x
  {
  }

  lemma {:induction false} RootsCount(all: seq<Activation>, ids: set<nat>, roots: set<nat>)
    requires forall i | i in ids :: i < |all| && all[i].place.root in roots
    requires forall i, j | i in ids && j in ids && all[i].place.root == all[j].place.root :: i == j
    ensures |ids| <= |roots|
    decreases ids
  {
    if ids != {} {
      var i :| i in ids;
      RootsCount(all, ids - {i}, roots - {all[i].place.root});
    }
  }

  lemma StuckPlace(d: Deployment, n: Net, most: nat, h: nat, id: nat)
    requires Tree(d, n.activations) && Stuck(d, n) && Loaded(d, n.activations, most, h) && id in Busy(n.activations)
    ensures var a := n.activations[id]; a.place.root in Open(n.activations) && a.place.level + 1 < h && !Replied(a)
  {
    hide Rooted, Awaited, Separate, Shallow, Nests, Open;
    var all := n.activations;
    RootOpen(d, all, id);
    StuckHandler(d, n, id);
    var c := all[id].pending.value.id;
    StuckHandler(d, n, c);
    LevelBounded(d, all, c, most, h, 1);
  }

  lemma StuckPlaced(d: Deployment, n: Net, most: nat, h: nat)
    requires Tree(d, n.activations) && Stuck(d, n) && Loaded(d, n.activations, most, h) && h > 0
    ensures Placed(n.activations, Busy(n.activations), Open(n.activations), h - 1)
  {
    hide Shallow, Awaited, Waiting, Rooted, Stuck, Open, Loaded;
    var all := n.activations;
    forall i | i in Busy(all)
      ensures i < |all| && all[i].place.root in Open(all) && all[i].place.level < h - 1 && !Replied(all[i])
    {
      StuckPlace(d, n, most, h, i);
    }
  }

  /** In a stuck state, connections are held at most h - 1 deep below each open request. */
  lemma {:induction false} StuckBusy(d: Deployment, n: Net, most: nat, h: nat)
    requires Tree(d, n.activations) && Stuck(d, n) && Loaded(d, n.activations, most, h) && h > 0
    ensures |Busy(n.activations)| <= Times(most, h - 1)
  {
    hide Stuck, Tree, Open, Busy, Times, Placed, Nests;
    var all := n.activations;
    StuckPlaced(d, n, most, h);
    PlacesCount(all, Busy(all), Open(all), h - 1);
    Scale(|Open(all)|, most, h - 1);
  }

  lemma Scale(x: nat, y: nat, m: nat)
    requires x <= y
    ensures Times(x, m) <= Times(y, m)
  {
  }

  /**
    Few and shallow enough requests never get stuck: as long as one is unfinished, some handler can take a step,
    provided that holding h - 1 connections for each open request leaves one free.
   */
  lemma {:induction false} NeverStuck(d: Deployment, n: Net, most: nat, h: nat)
    requires Tree(d, n.activations) && Loaded(d, n.activations, most, h)
    requires most * (h - 1) < d.connections
    ensures !Stuck(d, n)
  {
    if Stuck(d, n) {
      var id :| 0 <= id < |n.activations| && !n.activations[id].stage.Finished?;
      StuckHandler(d, n, id);
      LevelBounded(d, n.activations, id, most, h, 1);
      StuckIsFull(d, n, id, most, h);
      StuckBusy(d, n, most, h);
      assert false;
    }
  }
}
