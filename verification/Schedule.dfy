/**
 What a request calls, and with what, does not depend on what the calls
 return: a dry run over the graph gives the schedule, and the request makes
 the scheduled calls in order until one raises.
 */
module Schedule {
  import opened Wrappers
  import opened Scanner
  import opened Injection
  import opened Topology
  import opened DepthLimit

  /** The graph of the world, with providers that all return the same object. */
  function DryRun(w: World): World {
    w.(invoke := (n: nat, p: Provider, kwargs: map<string, Object>) => Returned(Object(0)))
  }

  /** The calls of the dry run: which provider, for which kind of reference, with the results of which calls. */
  function Scheduled(w: World, routes: seq<Dependency>, params: seq<ParamPlan>, stream: bool): seq<Instance> {
    Solve(DryRun(w), routes, params, stream).state.instances
  }

  /** The calls that completed, and the exception that ended them, if one did. */
  datatype Performed = Performed(instances: seq<Instance>, failure: Option<SolveError>)

  function ValuesAmong(instances: seq<Instance>, args: map<string, Ref>): map<string, Object> {
    map n | n in args && args[n] < |instances| :: instances[args[n]].value
  }

  /** Makes the scheduled calls in order, each with what the calls before it returned, until one raises. */
  function Perform(w: World, schedule: seq<Instance>): (r: Performed)
    ensures |r.instances| <= |schedule|
    ensures r.failure.None? ==> |r.instances| == |schedule|
    ensures r.failure.Some? ==> r.failure.value.ProviderRaised?
  {
    if schedule == [] then Performed([], None)
    else
      var before, last := Perform(w, schedule[..|schedule| - 1]), schedule[|schedule| - 1];
      if before.failure.Some? then before
      else
        match w.invoke(|before.instances|, last.provider, ValuesAmong(before.instances, last.args))
        case Raised(e) => Performed(before.instances, Some(ProviderRaised(last.provider, e)))
        case Returned(value) => Performed(before.instances + [last.(value := value)], None)
  }

  /** What call k does, given the calls completed before it. */
  function OutcomeOf(w: World, schedule: seq<Instance>, k: nat, before: seq<Instance>): Outcome
    requires k < |schedule|
  {
    w.invoke(k, schedule[k].provider, ValuesAmong(before, schedule[k].args))
  }

  /** Call k of the schedule raises, and none before it does. */
  predicate RaisesFirst(w: World, schedule: seq<Instance>, k: nat) {
    && k < |schedule|
    && var before := Perform(w, schedule[..k]);
       before.failure.None? && OutcomeOf(w, schedule, k, before.instances).Raised?
  }

  ghost predicate SomeRaises(w: World, schedule: seq<Instance>) {
    exists k :: RaisesFirst(w, schedule, k)
  }

  // ----- Properties of performing

  lemma {:induction false} FailureStays(w: World, schedule: seq<Instance>, longer: seq<Instance>)
    requires schedule <= longer && Perform(w, schedule).failure.Some?
    ensures Perform(w, longer) == Perform(w, schedule)
    decreases |longer|
  {
    if |schedule| == |longer| {
      assert schedule == longer;
    } else {
      FailureStays(w, schedule, longer[..|longer| - 1]);
    }
  }

  lemma {:induction false} PerformOneMore(w: World, schedule: seq<Instance>, last: Instance)
    requires Perform(w, schedule).failure.None?
    ensures var before := Perform(w, schedule).instances;
            Perform(w, schedule + [last]) ==
            match w.invoke(|before|, last.provider, ValuesAmong(before, last.args))
            case Raised(e) => Performed(before, Some(ProviderRaised(last.provider, e)))
            case Returned(value) => Performed(before + [last.(value := value)], None)
  {
    assert (schedule + [last])[..|schedule|] == schedule;
  }

  /** A completed call is the scheduled one, whatever it returned. */
  lemma {:induction false} PerformsSchedule(w: World, schedule: seq<Instance>, k: nat)
    requires k < |Perform(w, schedule).instances|
    ensures var done := Perform(w, schedule).instances[k];
            done == schedule[k].(value := done.value)
    decreases |schedule|
  {
    var init := schedule[..|schedule| - 1];
    if k < |Perform(w, init).instances| {
      PerformsSchedule(w, init, k);
    }
  }

  /** Performing stops at the first call that raises. */
  lemma {:induction false} StopsAtFirstRaise(w: World, schedule: seq<Instance>, k: nat)
    requires RaisesFirst(w, schedule, k)
    ensures var done := Perform(w, schedule);
            var outcome := OutcomeOf(w, schedule, k, done.instances);
            && |done.instances| == k && outcome.Raised?
            && done.failure == Some(ProviderRaised(schedule[k].provider, outcome.error))
  {
    assert schedule[..k + 1] == schedule[..k] + [schedule[k]];
    PerformOneMore(w, schedule[..k], schedule[k]);
    FailureStays(w, schedule[..k + 1], schedule);
  }

  lemma {:induction false} FailureIsARaise(w: World, schedule: seq<Instance>)
    requires Perform(w, schedule).failure.Some?
    ensures RaisesFirst(w, schedule, |Perform(w, schedule).instances|)
    decreases |schedule|
  {
    var n := |schedule| - 1;
    var init := schedule[..n];
    if Perform(w, init).failure.Some? {
      FailureIsARaise(w, init);
      var k := |Perform(w, init).instances|;
      assert init[..k] == schedule[..k];
    }
  }

  // ----- Calls are only ever added

  lemma {:induction false} ResolveGrows(w: World, dep: Dependency, chain: seq<Provider>, st: State)
    requires |chain| <= MAX_DEPTH
    ensures st.instances <= Resolve(w, dep, chain, st).state.instances
    decreases MAX_DEPTH - |chain|, 0
  {
    var p := w.Effective(dep.callable);
    if |chain| < MAX_DEPTH && !(dep.useCache && p in st.cache) {
      ParamsGrow(w, w.Params(p), chain + [p], st, map[]);
    }
  }

  lemma {:induction false} ParamsGrow(w: World, params: seq<ParamPlan>, chain: seq<Provider>, st: State,
                                      args: map<string, Ref>)
    requires |chain| <= MAX_DEPTH
    ensures st.instances <= ResolveParams(w, params, chain, st, args).state.instances
    decreases MAX_DEPTH - |chain|, 1 + |params|
  {
    if params == [] {
    } else if !params[0].kind.Depends? {
      ParamsGrow(w, params[1..], chain, st, args);
    } else if params[0].dependency.Some? {
      ResolveGrows(w, params[0].dependency.value, chain, st);
      var s := Resolve(w, params[0].dependency.value, chain, st);
      if s.result.Ok? {
        ParamsGrow(w, params[1..], chain, s.state, args[params[0].name := s.result.value]);
      }
    }
  }

  lemma {:induction false} RoutesGrow(w: World, routes: seq<Dependency>, st: State)
    ensures st.instances <= SolveRoutes(w, routes, st).state.instances
    decreases |routes|
  {
    if routes != [] {
      ResolveGrows(w, routes[0], [], st);
      RoutesGrow(w, routes[1..], Resolve(w, routes[0], [], st).state);
    }
  }

  lemma {:induction false} PlanGrows(w: World, params: seq<ParamPlan>, stream: bool, st: State, call: HandlerCall)
    ensures st.instances <= SolvePlan(w, params, stream, st, call).state.instances
    decreases |params|
  {
    if params == [] {
    } else if !params[0].kind.Depends? {
      PlanGrows(w, params[1..], stream, st, FillBuiltIn(params[0], stream, call));
    } else if params[0].dependency.Some? {
      ResolveGrows(w, params[0].dependency.value, [], st);
      var s := Resolve(w, params[0].dependency.value, [], st);
      if s.result.Ok? {
        PlanGrows(w, params[1..], stream, s.state, call.With(params[0].name, Resolved(s.result.value)));
      }
    }
  }

  // ----- A run and its dry run

  /** The run has made every call of the dry run, and agrees with it on all but the values. */
  ghost predicate InStep(w: World, st: State, dry: State) {
    && Perform(w, dry.instances) == Performed(st.instances, None)
    && st == dry.(instances := st.instances)
  }

  /** The run is in step with the dry run, or has stopped at a call that raised. */
  ghost predicate Follows<T>(w: World, s: Step<T>, d: Step<T>) {
    var done := Perform(w, d.state.instances);
    if done.failure.None? then s.result == d.result && InStep(w, s.state, d.state)
    else s.result == Err(done.failure.value) && s.state.instances == done.instances
  }

  lemma {:induction false} CallFollows(w: World, p: Provider, shared: bool, args: map<string, Ref>, st: State,
                                       dry: State)
    requires InStep(w, st, dry)
    ensures Follows(w, CallAndRemember(w, p, shared, args, st), CallAndRemember(DryRun(w), p, shared, args, dry))
  {
    var d := CallAndRemember(DryRun(w), p, shared, args, dry);
    var last := Instance(p, shared, args, Object(0));
    assert d.state.instances == dry.instances + [last];
    PerformOneMore(w, dry.instances, last);
    assert ValuesAmong(st.instances, args) == st.Values(args);
  }

  /** Once a run has stopped, whatever else the dry run calls does not matter. */
  lemma {:induction false} StaysStopped<T, U>(w: World, s: Step<T>, d: Step<T>, t: Step<U>, later: Step<U>)
    requires Follows(w, s, d) && Perform(w, d.state.instances).failure.Some?
    requires d.state.instances <= later.state.instances
    requires t == Step(s.state, Err(s.result.error))
    ensures Follows(w, t, later)
  {
    FailureStays(w, d.state.instances, later.state.instances);
  }

  lemma {:induction false} ResolveFollows(w: World, dep: Dependency, chain: seq<Provider>, st: State, dry: State)
    requires |chain| <= MAX_DEPTH && InStep(w, st, dry)
    ensures Follows(w, Resolve(w, dep, chain, st), Resolve(DryRun(w), dep, chain, dry))
    decreases MAX_DEPTH - |chain|, 0
  {
    var p := w.Effective(dep.callable);
    assert DryRun(w).Labels(chain + [p]) == w.Labels(chain + [p]);
    if |chain| < MAX_DEPTH && !(dep.useCache && p in st.cache) {
      ParamsFollow(w, w.Params(p), chain + [p], st, dry, map[]);
      var s := ResolveParams(w, w.Params(p), chain + [p], st, map[]);
      var d := ResolveParams(DryRun(w), w.Params(p), chain + [p], dry, map[]);
      if Perform(w, d.state.instances).failure.Some? {
        StaysStopped(w, s, d, Resolve(w, dep, chain, st), Resolve(DryRun(w), dep, chain, dry));
      } else if d.result.Ok? {
        CallFollows(w, p, dep.useCache, d.result.value, s.state, d.state);
      }
    }
  }

  lemma {:induction false} ParamsFollow(w: World, params: seq<ParamPlan>, chain: seq<Provider>, st: State, dry: State,
                                        args: map<string, Ref>)
    requires |chain| <= MAX_DEPTH && InStep(w, st, dry)
    ensures Follows(w, ResolveParams(w, params, chain, st, args), ResolveParams(DryRun(w), params, chain, dry, args))
    decreases MAX_DEPTH - |chain|, 1 + |params|
  {
    if params == [] {
    } else if !params[0].kind.Depends? {
      ParamsFollow(w, params[1..], chain, st, dry, args);
    } else if params[0].dependency.Some? {
      var dep := params[0].dependency.value;
      ResolveFollows(w, dep, chain, st, dry);
      var s, d := Resolve(w, dep, chain, st), Resolve(DryRun(w), dep, chain, dry);
      if Perform(w, d.state.instances).failure.Some? {
        if d.result.Ok? {
          ParamsGrow(DryRun(w), params[1..], chain, d.state, args[params[0].name := d.result.value]);
        }
        StaysStopped(w, s, d, ResolveParams(w, params, chain, st, args),
                     ResolveParams(DryRun(w), params, chain, dry, args));
      } else if d.result.Ok? {
        ParamsFollow(w, params[1..], chain, s.state, d.state, args[params[0].name := d.result.value]);
      }
    }
  }

  lemma {:induction false} RoutesFollow(w: World, routes: seq<Dependency>, st: State, dry: State)
    requires InStep(w, st, dry)
    ensures Follows(w, SolveRoutes(w, routes, st), SolveRoutes(DryRun(w), routes, dry))
    decreases |routes|
  {
    if routes != [] {
      ResolveFollows(w, routes[0], [], st, dry);
      var s, d := Resolve(w, routes[0], [], st), Resolve(DryRun(w), routes[0], [], dry);
      if Perform(w, d.state.instances).failure.Some? {
        RoutesGrow(DryRun(w), routes[1..], d.state);
        StaysStopped(w, s, d, SolveRoutes(w, routes, st), SolveRoutes(DryRun(w), routes, dry));
      } else if d.result.Ok? {
        RoutesFollow(w, routes[1..], s.state, d.state);
      }
    }
  }

  lemma {:induction false} PlanFollows(w: World, params: seq<ParamPlan>, stream: bool, st: State, dry: State,
                                       call: HandlerCall)
    requires InStep(w, st, dry)
    ensures Follows(w, SolvePlan(w, params, stream, st, call), SolvePlan(DryRun(w), params, stream, dry, call))
    decreases |params|
  {
    if params == [] {
    } else if !params[0].kind.Depends? {
      PlanFollows(w, params[1..], stream, st, dry, FillBuiltIn(params[0], stream, call));
    } else if params[0].dependency.Some? {
      var dep := params[0].dependency.value;
      ResolveFollows(w, dep, [], st, dry);
      var s, d := Resolve(w, dep, [], st), Resolve(DryRun(w), dep, [], dry);
      if Perform(w, d.state.instances).failure.Some? {
        if d.result.Ok? {
          PlanGrows(DryRun(w), params[1..], stream, d.state, call.With(params[0].name, Resolved(d.result.value)));
        }
        StaysStopped(w, s, d, SolvePlan(w, params, stream, st, call),
                     SolvePlan(DryRun(w), params, stream, dry, call));
      } else if d.result.Ok? {
        PlanFollows(w, params[1..], stream, s.state, d.state, call.With(params[0].name, Resolved(d.result.value)));
      }
    }
  }

  lemma {:induction false} SolveFollows(w: World, routes: seq<Dependency>, params: seq<ParamPlan>, stream: bool)
    ensures Follows(w, Solve(w, routes, params, stream), Solve(DryRun(w), routes, params, stream))
  {
    assert InStep(w, EMPTY, EMPTY);
    RoutesFollow(w, routes, EMPTY, EMPTY);
    var s, d := SolveRoutes(w, routes, EMPTY), SolveRoutes(DryRun(w), routes, EMPTY);
    if Perform(w, d.state.instances).failure.Some? {
      PlanGrows(DryRun(w), params, stream, d.state, NO_CALL);
      StaysStopped(w, s, d, Solve(w, routes, params, stream), Solve(DryRun(w), routes, params, stream));
    } else if d.result.Ok? {
      PlanFollows(w, params, stream, s.state, d.state, NO_CALL);
    }
  }

  // ----- Every run is the schedule, up to the first call that raises

  /**
   Whatever the providers do: the request makes the scheduled calls, in order
   and with the scheduled arguments, until one raises, and ends with that
   exception; if none raises, it ends as the dry run does, with the same call
   for the handler or the same depth error.
   */
  lemma {:induction false} SolveIsSchedule(w: World, routes: seq<Dependency>, params: seq<ParamPlan>, stream: bool,
                                           k: nat)
    ensures var s, d := Solve(w, routes, params, stream), Solve(DryRun(w), routes, params, stream);
            var schedule := Scheduled(w, routes, params, stream);
            && s.state.instances == Perform(w, schedule).instances
            && (RaisesFirst(w, schedule, k) ==>
                  var outcome := OutcomeOf(w, schedule, k, s.state.instances);
                  && |s.state.instances| == k && outcome.Raised?
                  && s.result == Err(ProviderRaised(schedule[k].provider, outcome.error)))
            && (!SomeRaises(w, schedule) ==> s.result == d.result && |s.state.instances| == |schedule|)
            && (k < |s.state.instances| ==> s.state.instances[k] == schedule[k].(value := s.state.instances[k].value))
  {
    var schedule := Scheduled(w, routes, params, stream);
    SolveFollows(w, routes, params, stream);
    if RaisesFirst(w, schedule, k) {
      StopsAtFirstRaise(w, schedule, k);
    }
    if Perform(w, schedule).failure.Some? {
      FailureIsARaise(w, schedule);
    }
    if k < |Perform(w, schedule).instances| {
      PerformsSchedule(w, schedule, k);
    }
  }

  /** Over one graph, any two runs make the same calls with the same arguments, as far as both get. */
  lemma {:induction false} CallsIgnoreValues(w: World, other: World, routes: seq<Dependency>, params: seq<ParamPlan>,
                                             stream: bool, k: nat)
    requires DryRun(w) == DryRun(other)
    requires k < |Solve(w, routes, params, stream).state.instances|
    requires k < |Solve(other, routes, params, stream).state.instances|
    ensures var a := Solve(w, routes, params, stream).state.instances[k];
            var b := Solve(other, routes, params, stream).state.instances[k];
            a == b.(value := a.value)
  {
    SolveIsSchedule(w, routes, params, stream, k);
    SolveIsSchedule(other, routes, params, stream, k);
  }

  /**
   Whatever the providers do: `solve` fails if and only if some scheduled call
   raises, or a root starts a walk too deep; a raising call comes before the
   depth error.
   */
  lemma {:induction false} SolveFailsIff(w: World, routes: seq<Dependency>, params: seq<ParamPlan>, stream: bool)
    requires Complete(params)
    ensures var r, schedule := Solve(w, routes, params, stream).result, Scheduled(w, routes, params, stream);
            && (r.Err? <==> SomeRaises(w, schedule) || HasDeepWalk(w, routes, params))
            && (r.Err? ==> (r.error.ProviderRaised? <==> SomeRaises(w, schedule)))
            && (r.Err? ==> (r.error.DepthExceeded? <==> !SomeRaises(w, schedule)))
  {
    var r, schedule := Solve(w, routes, params, stream).result, Scheduled(w, routes, params, stream);
    DeepWalkFails(w, routes, params, stream);
    DepthErrorIff(DryRun(w), routes, params, stream);
    if k :| RaisesFirst(w, schedule, k) {
      SolveIsSchedule(w, routes, params, stream, k);
    } else {
      SolveIsSchedule(w, routes, params, stream, 0);
    }
  }

  // ----- The schedule, read off the graph

  /** The providers called, in order, and whether the depth limit stopped the calls. */
  datatype Visit = Visit(providers: seq<Provider>, stopped: bool)

  /**
   From left to right, each unserved reference after everything below it;
   `done` has been called already, and `n` is how many more references the
   chain can take below the first.
   */
  ghost function PostOrder(w: World, list: seq<Dependency>, earlier: seq<Dependency>, n: nat, done: seq<Provider>)
    : Visit
    decreases n, |list|, 0
  {
    if list == [] then Visit(done, false)
    else
      var first := VisitOne(w, list[0], earlier, n, done);
      if first.stopped then first
      else PostOrder(w, list[1..], earlier + [list[0]], n, first.providers)
  }

  ghost function VisitOne(w: World, dep: Dependency, earlier: seq<Dependency>, n: nat, done: seq<Provider>): Visit
    decreases n, 0, 1
  {
    if n == 0 then Visit(done, true)
    else if Served(w, earlier, dep) then Visit(done, false)
    else
      var below := PostOrder(w, Below(w, dep), earlier, n - 1, done);
      if below.stopped then below else Visit(below.providers + [w.Effective(dep.callable)], false)
  }

  function Providers(instances: seq<Instance>): (r: seq<Provider>)
    ensures |r| == |instances| && forall i :: 0 <= i < |r| ==> r[i] == instances[i].provider
  {
    seq(|instances|, i requires 0 <= i < |instances| => instances[i].provider)
  }

  /** A step of the resolution as a visit: whom it has called so far, and whether it failed. */
  ghost function VisitOf<T>(s: Step<T>): Visit {
    Visit(Providers(s.state.instances), s.result.Err?)
  }

  lemma {:induction false} CacheAfter(w: World, dep: Dependency, chain: seq<Provider>, st: State,
                                      earlier: seq<Dependency>)
    requires |chain| <= MAX_DEPTH && CacheHolds(w, earlier, st)
    ensures var s := Resolve(w, dep, chain, st); s.result.Ok? ==> CacheHolds(w, earlier + [dep], s.state)
  {
    ResolveDeep(w, dep, chain, st, earlier);
  }

  lemma {:induction false} CallVisits(w: World, p: Provider, shared: bool, args: map<string, Ref>, st: State)
    requires NeverRaises(w)
    ensures VisitOf(CallAndRemember(w, p, shared, args, st)) == Visit(Providers(st.instances) + [p], false)
  {
    assert w.invoke(|st.instances|, p, st.Values(args)).Returned?;
    var s := CallAndRemember(w, p, shared, args, st);
    assert Providers(s.state.instances) == Providers(st.instances) + [p];
  }

  lemma {:induction false} ResolveVisits(w: World, dep: Dependency, chain: seq<Provider>, st: State,
                                         earlier: seq<Dependency>)
    requires NeverRaises(w) && |chain| <= MAX_DEPTH && CacheHolds(w, earlier, st)
    ensures VisitOf(Resolve(w, dep, chain, st))
         == VisitOne(w, dep, earlier, MAX_DEPTH - |chain|, Providers(st.instances))
    decreases MAX_DEPTH - |chain|, 0
  {
    var p := w.Effective(dep.callable);
    if |chain| < MAX_DEPTH && !(dep.useCache && p in st.cache) {
      ProvidersAreComplete(w, p);
      ParamsVisit(w, w.Params(p), chain + [p], st, map[], earlier);
      var s := ResolveParams(w, w.Params(p), chain + [p], st, map[]);
      if s.result.Ok? {
        CallVisits(w, p, dep.useCache, s.result.value, s.state);
      }
    }
  }

  lemma {:induction false} ParamsVisit(w: World, params: seq<ParamPlan>, chain: seq<Provider>, st: State,
                                       args: map<string, Ref>, earlier: seq<Dependency>)
    requires NeverRaises(w) && |chain| <= MAX_DEPTH && CacheHolds(w, earlier, st) && Complete(params)
    ensures VisitOf(ResolveParams(w, params, chain, st, args))
         == PostOrder(w, Dependencies(params), earlier, MAX_DEPTH - |chain|, Providers(st.instances))
    decreases MAX_DEPTH - |chain|, 1 + |params|
  {
    var list := Dependencies(params);
    if params == [] {
    } else if !params[0].kind.Depends? {
      assert list == Dependencies(params[1..]);
      ParamsVisit(w, params[1..], chain, st, args, earlier);
    } else {
      var dep := params[0].dependency.value;
      assert list[0] == dep && list[1..] == Dependencies(params[1..]);
      ResolveVisits(w, dep, chain, st, earlier);
      CacheAfter(w, dep, chain, st, earlier);
      var s := Resolve(w, dep, chain, st);
      if s.result.Ok? {
        ParamsVisit(w, params[1..], chain, s.state, args[params[0].name := s.result.value], earlier + [dep]);
      }
    }
  }

  lemma {:induction false} PlanVisits(w: World, params: seq<ParamPlan>, stream: bool, st: State, call: HandlerCall,
                                      earlier: seq<Dependency>)
    requires NeverRaises(w) && CacheHolds(w, earlier, st) && Complete(params)
    ensures VisitOf(SolvePlan(w, params, stream, st, call))
         == PostOrder(w, Dependencies(params), earlier, MAX_DEPTH, Providers(st.instances))
    decreases |params|
  {
    var list := Dependencies(params);
    if params == [] {
    } else if !params[0].kind.Depends? {
      assert list == Dependencies(params[1..]);
      PlanVisits(w, params[1..], stream, st, FillBuiltIn(params[0], stream, call), earlier);
    } else {
      var dep := params[0].dependency.value;
      assert list[0] == dep && list[1..] == Dependencies(params[1..]);
      ResolveVisits(w, dep, [], st, earlier);
      CacheAfter(w, dep, [], st, earlier);
      var s := Resolve(w, dep, [], st);
      if s.result.Ok? {
        var call' := call.With(params[0].name, Resolved(s.result.value));
        PlanVisits(w, params[1..], stream, s.state, call', earlier + [dep]);
      }
    }
  }

  lemma {:induction false} RequestVisits(w: World, routes: seq<Dependency>, params: seq<ParamPlan>, stream: bool,
                                         st: State, earlier: seq<Dependency>)
    requires NeverRaises(w) && CacheHolds(w, earlier, st) && Complete(params)
    ensures VisitOf(SolveFrom(w, routes, params, stream, st))
         == PostOrder(w, RootReferences(routes, params), earlier, MAX_DEPTH, Providers(st.instances))
    decreases |routes|
  {
    var list := RootReferences(routes, params);
    if routes == [] {
      assert list == Dependencies(params);
      PlanVisits(w, params, stream, st, NO_CALL, earlier);
    } else {
      assert list[0] == routes[0] && list[1..] == RootReferences(routes[1..], params);
      ResolveVisits(w, routes[0], [], st, earlier);
      CacheAfter(w, routes[0], [], st, earlier);
      var s := Resolve(w, routes[0], [], st);
      if s.result.Ok? {
        RequestVisits(w, routes[1..], params, stream, s.state, earlier + [routes[0]]);
        assert SolveFrom(w, routes, params, stream, st) == SolveFrom(w, routes[1..], params, stream, s.state);
      }
    }
  }

  // ----- The dry run has the same graph

  lemma {:induction false} SamePaths(w: World, path: seq<Provider>)
    ensures IsPath(DryRun(w), path) <==> IsPath(w, path)
  {
    forall i | 0 <= i < |path| - 1
      ensures Edge(DryRun(w), path[i], path[i + 1]) <==> Edge(w, path[i], path[i + 1])
    {
      NeedsAreDependencies(w, w.Params(path[i]), path[i + 1]);
      NeedsAreDependencies(DryRun(w), w.Params(path[i]), path[i + 1]);
    }
  }

  lemma {:induction false} SameReaches(w: World, p: Provider, q: Provider)
    ensures Reaches(DryRun(w), p, q) <==> Reaches(w, p, q)
  {
    if path :| PathBetween(w, path, p, q) {
      SamePaths(w, path);
      assert PathBetween(DryRun(w), path, p, q);
    }
    if path :| PathBetween(DryRun(w), path, p, q) {
      SamePaths(w, path);
      assert PathBetween(w, path, p, q);
    }
  }

  lemma {:induction false} SameServes(w: World, dep: Dependency, p: Provider)
    ensures Serves(DryRun(w), dep, p) <==> Serves(w, dep, p)
  {
    var from := w.Effective(dep.callable);
    forall q
      ensures Reaches(DryRun(w), from, q) && NeedsShared(DryRun(w), q, p)
         <==> Reaches(w, from, q) && NeedsShared(w, q, p)
    {
      SameReaches(w, from, q);
    }
  }

  lemma {:induction false} SameServed(w: World, earlier: seq<Dependency>, dep: Dependency)
    ensures Served(DryRun(w), earlier, dep) <==> Served(w, earlier, dep)
  {
    var p := w.Effective(dep.callable);
    forall i | 0 <= i < |earlier| ensures Serves(DryRun(w), earlier[i], p) <==> Serves(w, earlier[i], p) {
      SameServes(w, earlier[i], p);
    }
  }

  lemma {:induction false} SameWalks(w: World, list: seq<Dependency>, earlier: seq<Dependency>, path: seq<nat>)
    ensures Walk(DryRun(w), list, earlier, path) <==> Walk(w, list, earlier, path)
    decreases |path|
  {
    if |path| > 1 && path[0] < |list| {
      SameServed(w, earlier + list[..path[0]], list[path[0]]);
      SameWalks(w, Below(w, list[path[0]]), earlier + list[..path[0]], path[1..]);
    }
  }

  lemma {:induction false} SamePostOrder(w: World, list: seq<Dependency>, earlier: seq<Dependency>, n: nat,
                                         done: seq<Provider>)
    ensures PostOrder(DryRun(w), list, earlier, n, done) == PostOrder(w, list, earlier, n, done)
    decreases n, |list|, 0
  {
    if list != [] {
      SameVisit(w, list[0], earlier, n, done);
      SamePostOrder(w, list[1..], earlier + [list[0]], n, VisitOne(w, list[0], earlier, n, done).providers);
    }
  }

  lemma {:induction false} SameVisit(w: World, dep: Dependency, earlier: seq<Dependency>, n: nat, done: seq<Provider>)
    ensures VisitOne(DryRun(w), dep, earlier, n, done) == VisitOne(w, dep, earlier, n, done)
    decreases n, 0, 1
  {
    SameServed(w, earlier, dep);
    if n > 0 {
      SamePostOrder(w, Below(w, dep), earlier, n - 1, done);
    }
  }

  lemma {:induction false} SameDeepWalks(w: World, routes: seq<Dependency>, params: seq<ParamPlan>)
    ensures HasDeepWalk(DryRun(w), routes, params) <==> HasDeepWalk(w, routes, params)
  {
    var roots := RootReferences(routes, params);
    forall path: seq<nat> ensures Walk(DryRun(w), roots, [], path) <==> Walk(w, roots, [], path) {
      SameWalks(w, roots, [], path);
    }
  }

  /**
   The schedule calls the unserved references of the graph in post-order, as
   far as the depth limit lets it; it is cut short if and only if a root starts
   a walk too deep.
   */
  lemma {:induction false} ScheduleIsPostOrder(w: World, routes: seq<Dependency>, params: seq<ParamPlan>, stream: bool)
    requires Complete(params)
    ensures var visit := PostOrder(w, RootReferences(routes, params), [], MAX_DEPTH, []);
            && Providers(Scheduled(w, routes, params, stream)) == visit.providers
            && (visit.stopped <==> HasDeepWalk(w, routes, params))
  {
    var d := DryRun(w);
    assert CacheHolds(d, [], EMPTY);
    RequestVisits(d, routes, params, stream, EMPTY, []);
    assert SolveFrom(d, routes, params, stream, EMPTY) == Solve(d, routes, params, stream);
    DepthErrorIff(d, routes, params, stream);
    assert Providers(EMPTY.instances) == [];
    SamePostOrder(w, RootReferences(routes, params), [], MAX_DEPTH, []);
    SameDeepWalks(w, routes, params);
  }
}
