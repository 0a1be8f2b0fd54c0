/** Which requests leave generator dependencies open: `solve` has no `finally`. */
module Leaks {
  import opened Wrappers
  import opened Scanner
  import opened Injection
  import opened Journal
  import opened Topology
  import opened DepthLimit
  import opened Failure
  import opened Schedule
  import opened Teardown
  import opened Lifecycle
  import opened LifecycleOrder

  /** A generator object was made in this request, and never torn down. */
  predicate Leaked(c: Config, ep: Endpoint, k: Ref) {
    && k < |Solved(c, ep).state.instances| && c.world.isGenerator(Solved(c, ep).state.instances[k].provider)
    && (RouteCalled(k) in Process(c, ep).trace || ParamCalled(k) in Process(c, ep).trace)
    && TornDown(k) !in Process(c, ep).trace
  }

  lemma {:induction false} LeaksIffStackLeft(c: Config, ep: Endpoint)
    requires TakesDirectPath(c, ep) && Admitted(c, ep)
    ensures (exists k :: Leaked(c, ep, k)) <==> Solved(c, ep).result.Err? && Solved(c, ep).state.exitStack != []
  {
    var s := Solved(c, ep);
    SolveMatches(c.world, ep.routes, Scan(ep.handler.signature).params, false);
    if s.result.Err? && s.state.exitStack != [] {
      var k := s.state.exitStack[0];
      DirectPathEvents(c, ep, k);
      assert Leaked(c, ep, k);
    }
    if k :| Leaked(c, ep, k) {
      DirectPathEvents(c, ep, k);
      assert k in s.state.exitStack;
    }
  }

  // ----- Read off the schedule

  /** The calls of the request, before it is made. */
  function RequestSchedule(c: Config, ep: Endpoint): seq<Instance> {
    Scheduled(c.world, ep.routes, Scan(ep.handler.signature).params, false)
  }

  /** One of the first n scheduled calls is to a generator. */
  predicate GeneratorBefore(w: World, schedule: seq<Instance>, n: nat) {
    exists g :: 0 <= g < n && g < |schedule| && w.isGenerator(schedule[g].provider)
  }

  /** The k-th scheduled call is the first to raise, and comes after a generator. */
  predicate RaisesAfterGenerator(w: World, schedule: seq<Instance>, k: nat) {
    RaisesFirst(w, schedule, k) && GeneratorBefore(w, schedule, k)
  }

  lemma {:induction false} StackLeftBySchedule(w: World, st: State, schedule: seq<Instance>)
    requires StackMatches(w, st) && |st.instances| <= |schedule|
    requires forall k :: 0 <= k < |st.instances| ==> st.instances[k].provider == schedule[k].provider
    ensures st.exitStack != [] <==> GeneratorBefore(w, schedule, |st.instances|)
  {
    if st.exitStack != [] {
      assert w.isGenerator(schedule[st.exitStack[0]].provider);
    }
    if g :| 0 <= g < |st.instances| && g < |schedule| && w.isGenerator(schedule[g].provider) {
      assert w.isGenerator(st.instances[g].provider);
      assert g in Generators(w, st.instances);
    }
  }

  lemma {:induction false} MakesScheduledCalls(c: Config, ep: Endpoint)
    ensures var made, schedule := Solved(c, ep).state.instances, RequestSchedule(c, ep);
            && |made| <= |schedule|
            && forall k :: 0 <= k < |made| ==> made[k].provider == schedule[k].provider
  {
    var params, made := Scan(ep.handler.signature).params, Solved(c, ep).state.instances;
    SolveIsSchedule(c.world, ep.routes, params, false, 0);
    forall k | 0 <= k < |made| ensures made[k].provider == RequestSchedule(c, ep)[k].provider {
      SolveIsSchedule(c.world, ep.routes, params, false, k);
    }
  }

  /**
   Whatever the providers do: a request whose checks pass leaves a generator
   object open if and only if a generator is scheduled before the first call
   that raises or, none raising, the depth limit is met after a generator.
   */
  lemma {:induction false} LeaksIff(c: Config, ep: Endpoint)
    requires TakesDirectPath(c, ep) && Admitted(c, ep)
    ensures var w, schedule, params := c.world, RequestSchedule(c, ep), Scan(ep.handler.signature).params;
            (exists k :: Leaked(c, ep, k)) <==>
              || (exists k :: RaisesAfterGenerator(w, schedule, k))
              || (!SomeRaises(w, schedule) && HasDeepWalk(w, ep.routes, params)
                  && GeneratorBefore(w, schedule, |schedule|))
  {
    var w, schedule, params := c.world, RequestSchedule(c, ep), Scan(ep.handler.signature).params;
    var s := Solved(c, ep);
    LeaksIffStackLeft(c, ep);
    SolveMatches(w, ep.routes, params, false);
    ScanIsComplete(ep.handler.signature);
    MakesScheduledCalls(c, ep);
    StackLeftBySchedule(w, s.state, schedule);
    SolveFailsIff(w, ep.routes, params, false);
    if k :| RaisesFirst(w, schedule, k) {
      SolveIsSchedule(w, ep.routes, params, false, k);
      assert s.state.exitStack != [] ==> RaisesAfterGenerator(w, schedule, k);
      OnlyOneFirst(w, schedule, k);
    } else {
      SolveIsSchedule(w, ep.routes, params, false, 0);
    }
  }

  lemma {:induction false} OnlyOneFirst(w: World, schedule: seq<Instance>, k: nat)
    requires RaisesFirst(w, schedule, k)
    ensures forall j :: RaisesFirst(w, schedule, j) ==> j == k
  {
    StopsAtFirstRaise(w, schedule, k);
    forall j | RaisesFirst(w, schedule, j) ensures j == k {
      StopsAtFirstRaise(w, schedule, j);
    }
  }

  // ----- Read off the walks of the graph

  function HandlerReferences(ep: Endpoint): seq<Dependency> {
    RootReferences(ep.routes, Scan(ep.handler.signature).params)
  }

  ghost predicate ReachGenerator(w: World, refs: seq<Dependency>) {
    exists q :: ReachedBy(w, refs, q) && w.isGenerator(q)
  }

  /** The first walk to fail does so after a generator has been resolved. */
  ghost predicate FailsAfterGenerator(w: World, list: seq<Dependency>, path: seq<nat>) {
    FirstFailure(w, list, [], path, MAX_DEPTH) && ReachGenerator(w, ResolvedBefore(w, list, path, MAX_DEPTH))
  }

  lemma {:induction false} StackLeftIff(w: World, refs: seq<Dependency>, st: State)
    requires StackMatches(w, st) && CallsHold(w, refs, st)
    ensures st.exitStack != [] <==> ReachGenerator(w, refs)
  {
    if st.exitStack != [] {
      var q := st.instances[st.exitStack[0]].provider;
      assert Completed(st.instances, q) && ReachedBy(w, refs, q);
    }
    if q :| ReachedBy(w, refs, q) && w.isGenerator(q) {
      assert Completed(st.instances, q);
      var k :| 0 <= k < |st.instances| && st.instances[k].provider == q;
      assert k in Generators(w, st.instances);
    }
  }

  lemma {:induction false} FailureIsFirst(w: World, list: seq<Dependency>, error: SolveError, st: State,
                                          path: seq<nat>, other: seq<nat>)
    requires FailedAt(w, list, [], MAX_DEPTH, st, error, path) && FirstFailure(w, list, [], other, MAX_DEPTH)
    ensures other == path
  {
    FirstIsUnique(path, other);
  }

  lemma {:induction false} StackLeftAtFailure(w: World, list: seq<Dependency>, error: SolveError, st: State,
                                              path: seq<nat>)
    requires StackMatches(w, st) && FailedAt(w, list, [], MAX_DEPTH, st, error, path)
    ensures st.exitStack != [] <==> exists other :: FailsAfterGenerator(w, list, other)
  {
    var refs := ResolvedBefore(w, list, path, MAX_DEPTH);
    assert [] + refs == refs;
    StackLeftIff(w, refs, st);
    if ReachGenerator(w, refs) {
      assert FailsAfterGenerator(w, list, path);
    }
    if other :| FailsAfterGenerator(w, list, other) {
      FailureIsFirst(w, list, error, st, path, other);
    }
  }

  /**
   When calls raise by provider, or depend on their arguments only: a request
   whose checks pass leaves a generator object open if and only if some walk
   from a root fails, and a generator is reached by the references resolved
   before the end of the first one that does.
   */
  lemma {:induction false} LeaksIffWalk(c: Config, ep: Endpoint)
    requires TakesDirectPath(c, ep) && Admitted(c, ep) && Predictable(c.world)
    ensures (exists k :: Leaked(c, ep, k)) <==>
              exists path :: FailsAfterGenerator(c.world, HandlerReferences(ep), path)
  {
    var w, params, roots := c.world, Scan(ep.handler.signature).params, HandlerReferences(ep);
    var s := Solved(c, ep);
    LeaksIffStackLeft(c, ep);
    SolveMatches(w, ep.routes, params, false);
    ScanIsComplete(ep.handler.signature);
    WalkFailsIff(w, ep.routes, params, false);
    if s.result.Err? {
      var path :| FailedAt(w, roots, [], MAX_DEPTH, s.state, s.result.error, path);
      StackLeftAtFailure(w, roots, s.result.error, s.state, path);
    }
  }

  lemma {:induction false} ScanIsComplete(sig: seq<Parameter>)
    ensures Complete(Scan(sig).params)
  {
    ScanKeepsKinds(sig);
    forall i | 0 <= i < |sig|
      ensures Scan(sig).params[i].kind.Depends? ==> Scan(sig).params[i].dependency.Some?
    {
      ScannedDependsIsComplete(sig, i);
    }
  }

  // ----- A request that leaks

  const SESSION := Dependency(Provider(0), true)
  const LOGIN := Dependency(Provider(1), true)

  const DOWN := Exception(true, "AuthenticationError")

  /** Two route-level dependencies: a generator of fresh objects, and then a check that raises. */
  const REJECTING := World(
    (p: Provider) => [],
    (p: Provider) => "dependency",
    (p: Provider) => p == SESSION.callable,
    (n: nat, p: Provider, kwargs: map<string, Object>) =>
      if p == SESSION.callable then Returned(Object(n)) else Raised(DOWN),
    map[])

  /** An endpoint with both and a handler of no parameters leaves the generator open. */
  lemma {:induction false} RejectedRequestLeaks(c: Config, ep: Endpoint)
    requires TakesDirectPath(c, ep) && Admitted(c, ep) && c.world == REJECTING
    requires ep.routes == [SESSION, LOGIN] && ep.handler.signature == []
    ensures Leaked(c, ep, 0)
    ensures Process(c, ep).outcome == Err(DOWN)
  {
    var w := c.world;
    var first := Resolve(w, SESSION, [], EMPTY);
    assert w.Params(Provider(0)) == [] && w.Params(Provider(1)) == [];
    var made := CallAndRemember(w, Provider(0), true, map[], EMPTY);
    assert first == made;
    var second := Resolve(w, LOGIN, [], first.state);
    assert ep.routes[1..] == [LOGIN];
    assert SolveRoutes(w, ep.routes, EMPTY) == SolveRoutes(w, [LOGIN], first.state);
    assert second.result == Err(ProviderRaised(Provider(1), DOWN));
    DirectPathEvents(c, ep, 0);
  }
}
