/** The solver as it runs: one object per request, whose fields the resolution updates in place. */
module Injector {
  import opened Wrappers
  import opened Scanner
  import opened Injection
  import opened Invocation
  import opened Journal

  class Injector {
    const world: World
    const journal: Journal
    var cache: map<Provider, Ref>
    var chain: seq<string>
    var instances: seq<Instance>
    var exitStack: seq<Ref>
    ghost var references: seq<Reference>
    var call: HandlerCall
    /** Teardowns started so far, in order. */
    var tornDown: seq<Ref>

    ghost function Snapshot(): State
      reads this
    {
      State(cache, instances, exitStack, references)
    }

    constructor (w: World, j: Journal)
      ensures world == w && journal == j && Snapshot() == EMPTY && call == NO_CALL && tornDown == []
    {
      world, journal := w, j;
      cache, chain, instances, exitStack, references := map[], [], [], [], [];
      call, tornDown := NO_CALL, [];
    }

    /** `shared` and `forRoute` are only written down beside the call; they do not affect it. */
    method CallDependencyProvider(p: Provider, kwargs: map<string, Ref>, shared: bool, ghost forRoute: bool)
      returns (r: Result<Ref, SolveError>)
      modifies this`instances, this`exitStack, journal
      ensures Step(Snapshot(), r) == CallProvider(world, p, shared, kwargs, old(Snapshot()))
      ensures Grew(old(journal.events), journal.events, forRoute, old(|instances|), |instances|, FailureOf(r))
    {
      var values := map n | n in kwargs && kwargs[n] < |instances| :: instances[kwargs[n]].value;
      assert values == Snapshot().Values(kwargs);
      NothingGrew(journal.events, forRoute, |instances|);
      match world.invoke(|instances|, p, values)
      case Raised(e) =>
        r := Err(ProviderRaised(p, e));
        GrewByFailure(journal.events, journal.events, forRoute, |instances|, |instances|, ProviderRaised(p, e));
        journal.events := journal.events + [ProviderFailed(p)];
      case Returned(value) =>
        r := Ok(|instances|);
        GrewByCall(journal.events, journal.events, forRoute, |instances|, |instances|);
        journal.events := journal.events + [Called(forRoute, |instances|)];
        if world.isGenerator(p) {
          exitStack := exitStack + [|instances|];
        }
        instances := instances + [Instance(p, shared, kwargs, value)];
    }

    method ResolveDependency(dep: Dependency, ghost path: seq<Provider>, ghost forRoute: bool)
      returns (r: Result<Ref, SolveError>)
      requires |path| <= MAX_DEPTH && chain == world.Labels(path)
      modifies this`cache, this`chain, this`instances, this`exitStack, this`references, journal
      ensures Step(Snapshot(), r) == Resolve(world, dep, path, old(Snapshot()))
      ensures r.Ok? ==> chain == old(chain)
      ensures r.Err? && r.error.DepthExceeded? ==> chain == r.error.chain && |chain| == MAX_DEPTH + 1
      ensures Grew(old(journal.events), journal.events, forRoute, old(|instances|), |instances|, FailureOf(r))
      decreases MAX_DEPTH - |path|, 1
    {
      var provider := if dep.callable in world.overrides then world.overrides[dep.callable] else dep.callable;
      chain := chain + [world.qualname(provider)];
      ghost var path' := path + [provider];
      assert chain == world.Labels(path') && chain[..|chain| - 1] == old(chain);
      NothingGrew(journal.events, forRoute, |instances|);
      if |chain| > MAX_DEPTH {
        return Err(DepthExceeded(chain));
      }
      if dep.useCache && provider in cache {
        chain := chain[..|chain| - 1];
        references := references + [Reference(provider, true, cache[provider])];
        return Ok(cache[provider]);
      }
      var subPlan := ScanHandler(world.signature(provider));
      var subKwargs := ResolveSubDependencies(subPlan.params, path', forRoute);
      if subKwargs.Err? {
        return Err(subKwargs.error);
      }
      ghost var events, called := journal.events, |instances|;
      r := CallDependencyProvider(provider, subKwargs.value, dep.useCache, forRoute);
      GrewOn(old(journal.events), events, journal.events, forRoute, old(|instances|), called, |instances|,
             FailureOf(r));
      if r.Err? {
        return;
      }
      if dep.useCache {
        cache := cache[provider := r.value];
      }
      references := references + [Reference(provider, dep.useCache, r.value)];
      chain := chain[..|chain| - 1];
    }

    /** The loop over a provider's own parameters; `path` ends with that provider. */
    method ResolveSubDependencies(params: seq<ParamPlan>, ghost path: seq<Provider>, ghost forRoute: bool)
      returns (r: Result<map<string, Ref>, SolveError>)
      requires |path| <= MAX_DEPTH && chain == world.Labels(path)
      modifies this`cache, this`chain, this`instances, this`exitStack, this`references, journal
      ensures Step(Snapshot(), r) == ResolveParams(world, params, path, old(Snapshot()), map[])
      ensures r.Ok? ==> chain == old(chain)
      ensures r.Err? && r.error.DepthExceeded? ==> chain == r.error.chain && |chain| == MAX_DEPTH + 1
      ensures Grew(old(journal.events), journal.events, forRoute, old(|instances|), |instances|, FailureOf(r))
      decreases MAX_DEPTH - |path|, 2
    {
      var subKwargs: map<string, Ref> := map[];
      ghost var before := Snapshot();
      NothingGrew(journal.events, forRoute, |instances|);
      for i := 0 to |params|
        invariant chain == world.Labels(path)
        invariant ResolveParams(world, params, path, before, map[])
               == ResolveParams(world, params[i..], path, Snapshot(), subKwargs)
        invariant Grew(old(journal.events), journal.events, forRoute, old(|instances|), |instances|, None)
      {
        var param := params[i];
        assert params[i..][0] == param && params[i..][1..] == params[i + 1..];
        if param.kind.Depends? {
          if param.dependency.None? {
            return Err(NoCallable(param.name));
          }
          ghost var events, called := journal.events, |instances|;
          var sub := ResolveDependency(param.dependency.value, path, forRoute);
          GrewOn(old(journal.events), events, journal.events, forRoute, old(|instances|), called, |instances|,
                 FailureOf(sub));
          if sub.Err? {
            return Err(sub.error);
          }
          subKwargs := subKwargs[param.name := sub.value];
        }
      }
      r := Ok(subKwargs);
    }

    /** Resolves the route-level dependencies, then the handler's parameters in declaration order. */
    method Solve(routes: seq<Dependency>, params: seq<ParamPlan>, stream: bool)
      returns (r: Result<HandlerCall, SolveError>)
      requires Snapshot() == EMPTY && call == NO_CALL
      modifies this`cache, this`chain, this`instances, this`exitStack, this`references, this`call, journal
      ensures Step(Snapshot(), r) == Injection.Solve(world, routes, params, stream)
      ensures r.Ok? ==> r.value == call
      ensures journal.events == old(journal.events)
                             + SolveEvents(|SolveRoutes(world, routes, EMPTY).state.instances|, |instances|,
                                           FailureOf(r))
    {
      NothingGrew(journal.events, true, 0);
      for i := 0 to |routes|
        invariant call == NO_CALL
        invariant SolveRoutes(world, routes, EMPTY) == SolveRoutes(world, routes[i..], Snapshot())
        invariant Grew(old(journal.events), journal.events, true, 0, |instances|, None)
      {
        assert routes[i..][0] == routes[i] && routes[i..][1..] == routes[i + 1..];
        chain := [];
        ghost var events, called := journal.events, |instances|;
        var resolved := ResolveDependency(routes[i], [], true);
        GrewOn(old(journal.events), events, journal.events, true, 0, called, |instances|, FailureOf(resolved));
        if resolved.Err? {
          RoutesGrew(old(journal.events), journal.events, |instances|, FailureOf(resolved));
          return Err(resolved.error);
        }
      }
      ghost var events, routed := journal.events, |instances|;
      r := FillCall(params, stream);
      SolveGrew(old(journal.events), events, journal.events, routed, |instances|, FailureOf(r));
    }

    method FillCall(params: seq<ParamPlan>, stream: bool) returns (r: Result<HandlerCall, SolveError>)
      requires call == NO_CALL
      modifies this`cache, this`chain, this`instances, this`exitStack, this`references, this`call, journal
      ensures Step(Snapshot(), r) == SolvePlan(world, params, stream, old(Snapshot()), NO_CALL)
      ensures r.Ok? ==> r.value == call
      ensures Grew(old(journal.events), journal.events, false, old(|instances|), |instances|, FailureOf(r))
    {
      var positionalBuffer: seq<Arg> := [];
      ghost var before := Snapshot();
      NothingGrew(journal.events, false, |instances|);
      for i := 0 to |params|
        invariant call.positional == []
        invariant SolvePlan(world, params, stream, before, NO_CALL)
               == SolvePlan(world, params[i..], stream, Snapshot(), call.(positional := positionalBuffer))
        invariant Grew(old(journal.events), journal.events, false, old(|instances|), |instances|, None)
      {
        var param := params[i];
        assert params[i..][0] == param && params[i..][1..] == params[i + 1..];
        match param.kind {
          case Intent => call := call.With(param.name, IntentArg);
          case Context => call := call.With(param.name, ContextArg);
          case AgentTasks =>
            var tasks := call.NextTasks();
            call := call.(tasks := Some(tasks));
            call := call.With(param.name, TasksArg(tasks));
          case UploadedFiles => call := call.With(param.name, FilesArg);
          case HtmxHeaders => call := call.With(param.name, HtmxArg);
          case AgentStream =>
            if stream {
              call := call.With(param.name, StreamArg);
            }
          case Depends =>
            if param.dependency.None? {
              return Err(NoCallable(param.name));
            }
            chain := [];
            ghost var events, called := journal.events, |instances|;
            var resolved := ResolveDependency(param.dependency.value, [], false);
            GrewOn(old(journal.events), events, journal.events, false, old(|instances|), called, |instances|,
                   FailureOf(resolved));
            if resolved.Err? {
              return Err(resolved.error);
            }
            call := call.With(param.name, Resolved(resolved.value));
          case PositionalLegacy =>
            positionalBuffer := positionalBuffer + [if |positionalBuffer| == 0 then IntentArg else ContextArg];
        }
      }
      call := call.(positional := positionalBuffer);
      return Ok(call);
    }

    /** Calls the handler, then closes the exit stack whether or not the handler raised. */
    method InvokeHandler(h: Handler, close: Ref -> Option<Exception>) returns (r: Ran)
      modifies this`exitStack, this`tornDown, journal
      ensures r == Settle(CallHandler(h, call, instances, old(tornDown)), Unwound(close, old(exitStack), None))
      ensures exitStack == [] && tornDown == old(tornDown) + Reversed(old(exitStack))
      ensures journal.events == old(journal.events) + [HandlerInvoked] + TeardownEvents(Reversed(old(exitStack)))
    {
      journal.events := journal.events + [HandlerInvoked];
      var handled := if Binds(h.signature, call.positional, call.kwargs)
      then h.run(call.positional, call.kwargs, instances, tornDown) else NOT_BOUND;
      var pending: Option<Exception> := None;
      ghost var started: seq<Event>, done: seq<Ref> := journal.events, [];
      while exitStack != []
        invariant Unwound(close, exitStack, pending) == Unwound(close, old(exitStack), None)
        invariant done + Reversed(exitStack) == Reversed(old(exitStack))
        invariant tornDown == old(tornDown) + done
        invariant journal.events == started + TeardownEvents(done)
        decreases |exitStack|
      {
        var top := exitStack[|exitStack| - 1];
        exitStack := exitStack[..|exitStack| - 1];
        tornDown := tornDown + [top];
        journal.events := journal.events + [TornDown(top)];
        OneMoreTeardown(started, done, top);
        done := done + [top];
        if close(top).Some? {
          pending := close(top);
        }
      }
      r := if pending.Some? then handled.(replied := Err(pending.value)) else handled;
    }
  }
}
