/**
 The per-request cache is invisible: for deterministic providers, solving
 gives what plain recursive evaluation without any cache or depth limit gives.
 */
module Transparency {
  import opened Wrappers
  import opened Scanner
  import opened Injection

  // ----- Plain evaluation

  datatype Evaluation<T> = Done(value: T) | Failed(error: SolveError) | OutOfFuel

  function Evaluate(w: World, p: Provider, fuel: nat): Evaluation<Object>
    decreases fuel, 0
  {
    if fuel == 0 then OutOfFuel
    else
      match EvaluateParams(w, w.Params(p), fuel - 1, map[])
      case OutOfFuel => OutOfFuel
      case Failed(e) => Failed(e)
      case Done(kwargs) =>
        match w.invoke(0, p, kwargs)
        case Returned(value) => Done(value)
        case Raised(e) => Failed(ProviderRaised(p, e))
  }

  function EvaluateParams(w: World, params: seq<ParamPlan>, fuel: nat,
                          kwargs: map<string, Object>): Evaluation<map<string, Object>>
    decreases fuel, 1 + |params|
  {
    if params == [] then Done(kwargs)
    else if !params[0].kind.Depends? then EvaluateParams(w, params[1..], fuel, kwargs)
    else if params[0].dependency.None? then Failed(NoCallable(params[0].name))
    else
      match Evaluate(w, w.Effective(params[0].dependency.value.callable), fuel)
      case OutOfFuel => OutOfFuel
      case Failed(e) => Failed(e)
      case Done(value) => EvaluateParams(w, params[1..], fuel, kwargs[params[0].name := value])
  }

  function EvaluateRoutes(w: World, routes: seq<Dependency>, fuel: nat): Evaluation<()> {
    if routes == [] then Done(())
    else
      match Evaluate(w, w.Effective(routes[0].callable), fuel)
      case OutOfFuel => OutOfFuel
      case Failed(e) => Failed(e)
      case Done(_) => EvaluateRoutes(w, routes[1..], fuel)
  }

  /** The values the handler's `Depends` parameters should get, by name. */
  function EvaluateRequest(w: World, routes: seq<Dependency>, params: seq<ParamPlan>,
                           fuel: nat): Evaluation<map<string, Object>> {
    match EvaluateRoutes(w, routes, fuel)
    case OutOfFuel => OutOfFuel
    case Failed(e) => Failed(e)
    case Done(_) => EvaluateParams(w, params, fuel, map[])
  }

  // ----- More fuel changes nothing but running out

  lemma {:induction false} EvaluateMonotone(w: World, p: Provider, a: nat, b: nat)
    requires a <= b && !Evaluate(w, p, a).OutOfFuel?
    ensures Evaluate(w, p, b) == Evaluate(w, p, a)
    decreases a, 0
  {
    EvaluateParamsMonotone(w, w.Params(p), a - 1, b - 1, map[]);
  }

  lemma {:induction false} EvaluateParamsMonotone(w: World, params: seq<ParamPlan>, a: nat, b: nat,
                                                  kwargs: map<string, Object>)
    requires a <= b && !EvaluateParams(w, params, a, kwargs).OutOfFuel?
    ensures EvaluateParams(w, params, b, kwargs) == EvaluateParams(w, params, a, kwargs)
    decreases a, 1 + |params|
  {
    if params == [] {
    } else if !params[0].kind.Depends? {
      EvaluateParamsMonotone(w, params[1..], a, b, kwargs);
    } else if params[0].dependency.Some? {
      var q := w.Effective(params[0].dependency.value.callable);
      EvaluateMonotone(w, q, a, b);
      var v := Evaluate(w, q, a);
      if v.Done? {
        EvaluateParamsMonotone(w, params[1..], a, b, kwargs[params[0].name := v.value]);
      }
    }
  }

  lemma {:induction false} EvaluateRoutesMonotone(w: World, routes: seq<Dependency>, a: nat, b: nat)
    requires a <= b && !EvaluateRoutes(w, routes, a).OutOfFuel?
    ensures EvaluateRoutes(w, routes, b) == EvaluateRoutes(w, routes, a)
    decreases |routes|
  {
    if routes != [] {
      EvaluateMonotone(w, w.Effective(routes[0].callable), a, b);
      if Evaluate(w, w.Effective(routes[0].callable), a).Done? {
        EvaluateRoutesMonotone(w, routes[1..], a, b);
      }
    }
  }

  lemma {:induction false} EvaluateRequestMonotone(w: World, routes: seq<Dependency>, params: seq<ParamPlan>, a: nat,
                                                   b: nat)
    requires a <= b && !EvaluateRequest(w, routes, params, a).OutOfFuel?
    ensures EvaluateRequest(w, routes, params, b) == EvaluateRequest(w, routes, params, a)
  {
    EvaluateRoutesMonotone(w, routes, a, b);
    if EvaluateRoutes(w, routes, a).Done? {
      EvaluateParamsMonotone(w, params, a, b, map[]);
    }
  }

  // ----- Solving agrees with plain evaluation

  ghost predicate Deterministic(w: World) {
    forall n, p, kwargs :: w.invoke(n, p, kwargs) == w.invoke(0, p, kwargs)
  }

  /** Every object made, cached or not, is what evaluating its provider gives; the cache names such objects. */
  ghost predicate ObjectsSound(w: World, st: State) {
    && (forall k :: 0 <= k < |st.instances| ==>
          Evaluate(w, st.instances[k].provider, |st.instances|) == Done(st.instances[k].value))
    && (forall p :: p in st.cache ==> st.cache[p] < |st.instances| && st.instances[st.cache[p]].provider == p)
  }

  ghost predicate InRange(st: State, args: map<string, Ref>) {
    forall n :: n in args ==> args[n] < |st.instances|
  }

  /** How resolving one reference from `depth` providers down must compare with evaluating p. */
  ghost predicate RefAgrees(w: World, p: Provider, depth: nat, s: Step<Ref>)
    requires depth <= MAX_DEPTH
  {
    match s.result
    case Ok(r) => r < |s.state.instances|
                  && Evaluate(w, p, |s.state.instances|) == Done(s.state.instances[r].value)
    case Err(e) =>
      if e.DepthExceeded? then Evaluate(w, p, MAX_DEPTH - depth).OutOfFuel?
      else Evaluate(w, p, |s.state.instances| + 1 + MAX_DEPTH - depth) == Failed(e)
  }

  ghost predicate ArgsAgree(w: World, params: seq<ParamPlan>, kwargs: map<string, Object>, depth: nat,
                            s: Step<map<string, Ref>>)
    requires depth <= MAX_DEPTH
  {
    match s.result
    case Ok(args) => InRange(s.state, args)
                     && EvaluateParams(w, params, |s.state.instances|, kwargs) == Done(s.state.Values(args))
    case Err(e) =>
      if e.DepthExceeded? then EvaluateParams(w, params, MAX_DEPTH - depth, kwargs).OutOfFuel?
      else EvaluateParams(w, params, |s.state.instances| + 1 + MAX_DEPTH - depth, kwargs) == Failed(e)
  }

  lemma {:induction false} OneMoreSound(w: World, st: State, called: Instance)
    requires forall k :: 0 <= k < |st.instances| ==>
               Evaluate(w, st.instances[k].provider, |st.instances|) == Done(st.instances[k].value)
    requires Evaluate(w, called.provider, |st.instances| + 1) == Done(called.value)
    ensures var later := st.instances + [called];
            forall k :: 0 <= k < |later| ==> Evaluate(w, later[k].provider, |later|) == Done(later[k].value)
  {
    var later := st.instances + [called];
    forall k | 0 <= k < |later|
      ensures Evaluate(w, later[k].provider, |later|) == Done(later[k].value)
    {
      if k < |st.instances| {
        EvaluateMonotone(w, later[k].provider, |st.instances|, |later|);
      }
    }
  }

  lemma {:induction false} EvaluateCalls(w: World, p: Provider, fuel: nat, kwargs: map<string, Object>)
    requires EvaluateParams(w, w.Params(p), fuel, map[]) == Done(kwargs)
    ensures Evaluate(w, p, fuel + 1) ==
            match w.invoke(0, p, kwargs)
            case Returned(value) => Done(value)
            case Raised(e) => Failed(ProviderRaised(p, e))
  {
  }

  lemma {:induction false} CallReturned(w: World, st: State, p: Provider, shared: bool, args: map<string, Ref>,
                                        value: Object)
    requires ObjectsSound(w, st) && Evaluate(w, p, |st.instances| + 1) == Done(value)
    ensures var later, r := st.Create(w, p, shared, args, value), |st.instances|;
            ObjectsSound(w, later.Remember(p, shared, r).Refer(p, shared, r))
  {
    OneMoreSound(w, st, Instance(p, shared, args, value));
  }

  lemma {:induction false} CallTransparent(w: World, p: Provider, shared: bool, args: map<string, Ref>, st: State,
                                           depth: nat)
    requires Deterministic(w) && ObjectsSound(w, st) && depth < MAX_DEPTH
    requires EvaluateParams(w, w.Params(p), |st.instances|, map[]) == Done(st.Values(args))
    ensures var s := CallAndRemember(w, p, shared, args, st);
            st.instances <= s.state.instances && ObjectsSound(w, s.state) && RefAgrees(w, p, depth, s)
  {
    var kwargs := st.Values(args);
    assert w.invoke(|st.instances|, p, kwargs) == w.invoke(0, p, kwargs);
    EvaluateCalls(w, p, |st.instances|, kwargs);
    match w.invoke(0, p, kwargs)
    case Raised(_) =>
      EvaluateMonotone(w, p, |st.instances| + 1, |st.instances| + 1 + MAX_DEPTH - depth);
    case Returned(value) =>
      CallReturned(w, st, p, shared, args, value);
  }

  /** A value once evaluated is all that any fuel can give, short of running out. */
  lemma {:induction false} EvaluateOrStarve(w: World, p: Provider, enough: nat, fuel: nat)
    requires Evaluate(w, p, enough).Done?
    ensures Evaluate(w, p, fuel) == Evaluate(w, p, enough) || (fuel < enough && Evaluate(w, p, fuel).OutOfFuel?)
  {
    if enough <= fuel {
      EvaluateMonotone(w, p, enough, fuel);
    } else if !Evaluate(w, p, fuel).OutOfFuel? {
      EvaluateMonotone(w, p, fuel, enough);
    }
  }

  lemma {:induction false} BelowFails(w: World, p: Provider, depth: nat, t: Step<map<string, Ref>>)
    requires depth < MAX_DEPTH && t.result.Err? && ArgsAgree(w, w.Params(p), map[], depth + 1, t)
    ensures RefAgrees(w, p, depth, Step(t.state, Err(t.result.error)))
  {
  }

  lemma {:induction false} ResolveTransparent(w: World, dep: Dependency, chain: seq<Provider>, st: State)
    requires Deterministic(w) && |chain| <= MAX_DEPTH && ObjectsSound(w, st)
    ensures var s := Resolve(w, dep, chain, st);
            && st.instances <= s.state.instances && ObjectsSound(w, s.state)
            && RefAgrees(w, w.Effective(dep.callable), |chain|, s)
    decreases MAX_DEPTH - |chain|, 0
  {
    var p := w.Effective(dep.callable);
    if |chain| < MAX_DEPTH && !(dep.useCache && p in st.cache) {
      ParamsTransparent(w, w.Params(p), chain + [p], st, map[]);
      assert st.Values(map[]) == map[];
      var s := ResolveParams(w, w.Params(p), chain + [p], st, map[]);
      if s.result.Ok? {
        CallTransparent(w, p, dep.useCache, s.result.value, s.state, |chain|);
      } else {
        BelowFails(w, p, |chain|, s);
      }
    }
  }

  lemma {:induction false} ParamsTransparent(w: World, params: seq<ParamPlan>, chain: seq<Provider>, st: State,
                                             args: map<string, Ref>)
    requires Deterministic(w) && |chain| <= MAX_DEPTH && ObjectsSound(w, st) && InRange(st, args)
    ensures var s := ResolveParams(w, params, chain, st, args);
            && st.instances <= s.state.instances && ObjectsSound(w, s.state)
            && ArgsAgree(w, params, st.Values(args), |chain|, s)
    decreases MAX_DEPTH - |chain|, 1 + |params|
  {
    if params == [] {
    } else if !params[0].kind.Depends? {
      ParamsTransparent(w, params[1..], chain, st, args);
      SkipTransparent(w, params, |chain|, st.Values(args), ResolveParams(w, params[1..], chain, st, args));
    } else if params[0].dependency.Some? {
      var dep := params[0].dependency.value;
      ResolveTransparent(w, dep, chain, st);
      var s := Resolve(w, dep, chain, st);
      if s.result.Ok? {
        var args' := args[params[0].name := s.result.value];
        ParamsTransparent(w, params[1..], chain, s.state, args');
        var t := ResolveParams(w, params[1..], chain, s.state, args');
        assert ResolveParams(w, params, chain, st, args) == t;
        HeadTransparent(w, params, |chain|, st, args, s, t);
      } else {
        HeadFails(w, params, |chain|, st.Values(args), s);
      }
    }
  }

  lemma {:induction false} SkipTransparent(w: World, params: seq<ParamPlan>, depth: nat, kwargs: map<string, Object>,
                                           s: Step<map<string, Ref>>)
    requires depth <= MAX_DEPTH && params != [] && !params[0].kind.Depends?
    requires ArgsAgree(w, params[1..], kwargs, depth, s)
    ensures ArgsAgree(w, params, kwargs, depth, s)
  {
  }

  lemma {:induction false} HeadFails(w: World, params: seq<ParamPlan>, depth: nat, kwargs: map<string, Object>,
                                     s: Step<Ref>)
    requires depth <= MAX_DEPTH && s.result.Err?
    requires params != [] && params[0].kind.Depends? && params[0].dependency.Some?
    requires RefAgrees(w, w.Effective(params[0].dependency.value.callable), depth, s)
    ensures ArgsAgree(w, params, kwargs, depth, Step(s.state, Err(s.result.error)))
  {
  }

  lemma {:induction false} ValuesExtend(st: State, later: State, args: map<string, Ref>, name: string, r: Ref)
    requires InRange(st, args) && st.instances <= later.instances && r < |later.instances|
    ensures later.Values(args[name := r]) == st.Values(args)[name := later.instances[r].value]
  {
  }

  /** Evaluating a list is evaluating its first reference, and then the rest. */
  lemma {:induction false} EvaluateHead(w: World, params: seq<ParamPlan>, enough: nat, value: Object, fuel: nat,
                                        kwargs: map<string, Object>)
    requires params != [] && params[0].kind.Depends? && params[0].dependency.Some?
    requires Evaluate(w, w.Effective(params[0].dependency.value.callable), enough) == Done(value)
    ensures EvaluateParams(w, params, fuel, kwargs).OutOfFuel?
            || EvaluateParams(w, params, fuel, kwargs)
               == EvaluateParams(w, params[1..], fuel, kwargs[params[0].name := value])
    ensures enough <= fuel || EvaluateParams(w, params[1..], fuel, kwargs[params[0].name := value]).OutOfFuel? ==>
              EvaluateParams(w, params, fuel, kwargs)
              == EvaluateParams(w, params[1..], fuel, kwargs[params[0].name := value])
  {
    EvaluateOrStarve(w, w.Effective(params[0].dependency.value.callable), enough, fuel);
  }

  /** Once the first reference has its value, the rest decides how the whole list compares. */
  lemma {:induction false} HeadTransparent(w: World, params: seq<ParamPlan>, depth: nat, st: State,
                                           args: map<string, Ref>,
                        s: Step<Ref>, t: Step<map<string, Ref>>)
    requires depth <= MAX_DEPTH && InRange(st, args)
    requires params != [] && params[0].kind.Depends? && params[0].dependency.Some?
    requires st.instances <= s.state.instances <= t.state.instances
    requires s.result.Ok? && RefAgrees(w, w.Effective(params[0].dependency.value.callable), depth, s)
    requires ArgsAgree(w, params[1..], s.state.Values(args[params[0].name := s.result.value]), depth, t)
    ensures ArgsAgree(w, params, st.Values(args), depth, t)
  {
    ValuesExtend(st, s.state, args, params[0].name, s.result.value);
    var fuel := if t.result.Ok? then |t.state.instances|
    else if t.result.error.DepthExceeded? then MAX_DEPTH - depth
    else |t.state.instances| + 1 + MAX_DEPTH - depth;
    EvaluateHead(w, params, |s.state.instances|, s.state.instances[s.result.value].value, fuel, st.Values(args));
  }

  // ----- The whole request

  /** The dependency values in a solved call. */
  function DependencyValues(st: State, call: HandlerCall): map<string, Object> {
    map n | n in call.kwargs && call.kwargs[n].Resolved? && call.kwargs[n].ref < |st.instances|
      :: st.instances[call.kwargs[n].ref].value
  }

  ghost predicate CallInRange(st: State, call: HandlerCall) {
    forall n :: n in call.kwargs && call.kwargs[n].Resolved? ==> call.kwargs[n].ref < |st.instances|
  }

  ghost predicate PlanAgrees(w: World, params: seq<ParamPlan>, kwargs: map<string, Object>, s: Step<HandlerCall>) {
    match s.result
    case Ok(call) => EvaluateParams(w, params, |s.state.instances|, kwargs) == Done(DependencyValues(s.state, call))
    case Err(e) =>
      if e.DepthExceeded? then EvaluateParams(w, params, MAX_DEPTH, kwargs).OutOfFuel?
      else EvaluateParams(w, params, |s.state.instances| + 1 + MAX_DEPTH, kwargs) == Failed(e)
  }

  lemma {:induction false} PlanTransparent(w: World, params: seq<ParamPlan>, stream: bool, st: State, call: HandlerCall)
    requires Deterministic(w) && ObjectsSound(w, st)
    requires DistinctNames(params) && Unused(params, call.kwargs.Keys) && CallInRange(st, call)
    ensures var s := SolvePlan(w, params, stream, st, call);
            && st.instances <= s.state.instances && ObjectsSound(w, s.state)
            && PlanAgrees(w, params, DependencyValues(st, call), s)
    decreases |params|
  {
    if params == [] {
    } else if !params[0].kind.Depends? {
      var call' := FillBuiltIn(params[0], stream, call);
      BuiltInFilled(params, stream, st, call);
      PlanTransparent(w, params[1..], stream, st, call');
      PlanSkipTransparent(w, params, DependencyValues(st, call), SolvePlan(w, params[1..], stream, st, call'));
    } else if params[0].dependency.Some? {
      ResolveTransparent(w, params[0].dependency.value, [], st);
      var s := Resolve(w, params[0].dependency.value, [], st);
      if s.result.Ok? {
        var call' := call.With(params[0].name, Resolved(s.result.value));
        DependencyFilled(params, st, call, s.state, s.result.value);
        PlanTransparent(w, params[1..], stream, s.state, call');
        var t := SolvePlan(w, params[1..], stream, s.state, call');
        assert SolvePlan(w, params, stream, st, call) == t;
        PlanHeadTransparent(w, params, st, call, s, t);
      } else {
        PlanHeadFails(w, params, DependencyValues(st, call), s);
      }
    }
  }

  lemma {:induction false} BuiltInFilled(params: seq<ParamPlan>, stream: bool, st: State, call: HandlerCall)
    requires params != [] && !params[0].kind.Depends?
    requires DistinctNames(params) && Unused(params, call.kwargs.Keys) && CallInRange(st, call)
    ensures var call' := FillBuiltIn(params[0], stream, call);
            && DistinctNames(params[1..]) && Unused(params[1..], call'.kwargs.Keys) && CallInRange(st, call')
            && DependencyValues(st, call') == DependencyValues(st, call)
  {
    FillAddsOneName(params, stream, call);
  }

  lemma {:induction false} DependencyFilled(params: seq<ParamPlan>, st: State, call: HandlerCall, later: State, r: Ref)
    requires params != []
    requires DistinctNames(params) && Unused(params, call.kwargs.Keys) && CallInRange(st, call)
    requires st.instances <= later.instances && r < |later.instances|
    ensures var call' := call.With(params[0].name, Resolved(r));
            && DistinctNames(params[1..]) && Unused(params[1..], call'.kwargs.Keys) && CallInRange(later, call')
            && DependencyValues(later, call') == DependencyValues(st, call)[params[0].name := later.instances[r].value]
  {
  }

  lemma {:induction false} PlanSkipTransparent(w: World, params: seq<ParamPlan>, kwargs: map<string, Object>,
                                               s: Step<HandlerCall>)
    requires params != [] && !params[0].kind.Depends?
    requires PlanAgrees(w, params[1..], kwargs, s)
    ensures PlanAgrees(w, params, kwargs, s)
  {
  }

  lemma {:induction false} PlanHeadFails(w: World, params: seq<ParamPlan>, kwargs: map<string, Object>, s: Step<Ref>)
    requires s.result.Err?
    requires params != [] && params[0].kind.Depends? && params[0].dependency.Some?
    requires RefAgrees(w, w.Effective(params[0].dependency.value.callable), 0, s)
    ensures PlanAgrees(w, params, kwargs, Step(s.state, Err(s.result.error)))
  {
  }

  lemma {:induction false} PlanHeadTransparent(w: World, params: seq<ParamPlan>, st: State, call: HandlerCall,
                            s: Step<Ref>, t: Step<HandlerCall>)
    requires DistinctNames(params) && Unused(params, call.kwargs.Keys) && CallInRange(st, call)
    requires params != [] && params[0].kind.Depends? && params[0].dependency.Some?
    requires st.instances <= s.state.instances <= t.state.instances
    requires s.result.Ok? && RefAgrees(w, w.Effective(params[0].dependency.value.callable), 0, s)
    requires var call' := call.With(params[0].name, Resolved(s.result.value));
             PlanAgrees(w, params[1..], DependencyValues(s.state, call'), t)
    ensures PlanAgrees(w, params, DependencyValues(st, call), t)
  {
    DependencyFilled(params, st, call, s.state, s.result.value);
    var q := w.Effective(params[0].dependency.value.callable);
    var fuel := if t.result.Ok? then |t.state.instances|
    else if t.result.error.DepthExceeded? then MAX_DEPTH
    else |t.state.instances| + 1 + MAX_DEPTH;
    EvaluateOrStarve(w, q, |s.state.instances|, fuel);
  }

  lemma {:induction false} RoutesTransparent(w: World, routes: seq<Dependency>, st: State)
    requires Deterministic(w) && ObjectsSound(w, st)
    ensures var s := SolveRoutes(w, routes, st);
            && st.instances <= s.state.instances && ObjectsSound(w, s.state)
            && match s.result
               case Ok(_) => EvaluateRoutes(w, routes, |s.state.instances|).Done?
               case Err(e) =>
                 if e.DepthExceeded? then EvaluateRoutes(w, routes, MAX_DEPTH).OutOfFuel?
                 else EvaluateRoutes(w, routes, |s.state.instances| + 1 + MAX_DEPTH) == Failed(e)
    decreases |routes|
  {
    if routes != [] {
      ResolveTransparent(w, routes[0], [], st);
      var s := Resolve(w, routes[0], [], st);
      if s.result.Ok? {
        RoutesTransparent(w, routes[1..], s.state);
        var t := SolveRoutes(w, routes[1..], s.state);
        var fuel := if t.result.Ok? then |t.state.instances|
        else if t.result.error.DepthExceeded? then MAX_DEPTH
        else |t.state.instances| + 1 + MAX_DEPTH;
        EvaluateOrStarve(w, w.Effective(routes[0].callable), |s.state.instances|, fuel);
      }
    }
  }

  lemma {:induction false} RoutesOrStarve(w: World, routes: seq<Dependency>, enough: nat, fuel: nat)
    requires EvaluateRoutes(w, routes, enough).Done?
    ensures EvaluateRoutes(w, routes, fuel).Done? || EvaluateRoutes(w, routes, fuel).OutOfFuel?
    ensures enough <= fuel ==> EvaluateRoutes(w, routes, fuel).Done?
  {
    if enough <= fuel {
      EvaluateRoutesMonotone(w, routes, enough, fuel);
    } else if !EvaluateRoutes(w, routes, fuel).OutOfFuel? {
      EvaluateRoutesMonotone(w, routes, fuel, enough);
    }
  }

  /** How solving a request must compare with evaluating it. */
  ghost predicate RequestAgrees(w: World, routes: seq<Dependency>, params: seq<ParamPlan>, s: Step<HandlerCall>) {
    match s.result
    case Ok(call) =>
      EvaluateRequest(w, routes, params, |s.state.instances|) == Done(DependencyValues(s.state, call))
    case Err(e) =>
      if e.DepthExceeded? then EvaluateRequest(w, routes, params, MAX_DEPTH).OutOfFuel?
      else EvaluateRequest(w, routes, params, |s.state.instances| + 1 + MAX_DEPTH) == Failed(e)
  }

  lemma {:induction false} RoutesThenPlan(w: World, routes: seq<Dependency>, params: seq<ParamPlan>, enough: nat,
                                          s: Step<HandlerCall>)
    requires EvaluateRoutes(w, routes, enough).Done? && enough <= |s.state.instances|
    requires PlanAgrees(w, params, map[], s)
    ensures RequestAgrees(w, routes, params, s)
  {
    RoutesOrStarve(w, routes, enough, |s.state.instances|);
    RoutesOrStarve(w, routes, enough, |s.state.instances| + 1 + MAX_DEPTH);
    RoutesOrStarve(w, routes, enough, MAX_DEPTH);
  }

  lemma {:induction false} SolveAgrees(w: World, routes: seq<Dependency>, params: seq<ParamPlan>, stream: bool)
    requires Deterministic(w) && DistinctNames(params)
    ensures var s := Solve(w, routes, params, stream);
            ObjectsSound(w, s.state) && RequestAgrees(w, routes, params, s)
  {
    var r := SolveRoutes(w, routes, EMPTY);
    RoutesTransparent(w, routes, EMPTY);
    if r.result.Ok? {
      assert DependencyValues(r.state, NO_CALL) == map[];
      PlanTransparent(w, params, stream, r.state, NO_CALL);
      RoutesThenPlan(w, routes, params, |r.state.instances|, SolvePlan(w, params, stream, r.state, NO_CALL));
    }
  }

  /** What a request evaluates to with enough fuel, it does with more; and what starves, starves with less. */
  lemma {:induction false} RequestWithFuel(w: World, routes: seq<Dependency>, params: seq<ParamPlan>, a: nat, b: nat)
    requires a <= b
    ensures EvaluateRequest(w, routes, params, a).OutOfFuel?
            || EvaluateRequest(w, routes, params, b) == EvaluateRequest(w, routes, params, a)
  {
    if !EvaluateRequest(w, routes, params, a).OutOfFuel? {
      EvaluateRequestMonotone(w, routes, params, a, b);
    }
  }

  /**
   For deterministic providers: a solved request hands the handler exactly the
   values plain evaluation gives; a provider's exception, or a missing
   callable, is the one plain evaluation meets first; and the depth error is
   raised only when plain evaluation needs more than 32 levels.  However the
   request ended, every object any provider made in it, and so whatever any
   reference got, is what plain evaluation of its provider gives.
   */
  lemma {:induction false} CacheTransparency(w: World, routes: seq<Dependency>, params: seq<ParamPlan>, stream: bool,
                                             fuel: nat)
    requires Deterministic(w) && DistinctNames(params)
    ensures var s := Solve(w, routes, params, stream);
            && ObjectsSound(w, s.state)
            && match s.result
               case Ok(call) =>
                 fuel >= |s.state.instances| ==>
                   EvaluateRequest(w, routes, params, fuel) == Done(DependencyValues(s.state, call))
               case Err(e) =>
                 if e.DepthExceeded? then fuel <= 32 ==> EvaluateRequest(w, routes, params, fuel).OutOfFuel?
                 else fuel >= |s.state.instances| + 33 ==> EvaluateRequest(w, routes, params, fuel) == Failed(e)
  {
    var s := Solve(w, routes, params, stream);
    SolveAgrees(w, routes, params, stream);
    var bound := if s.result.Ok? then |s.state.instances|
    else if s.result.error.DepthExceeded? then MAX_DEPTH
    else |s.state.instances| + 1 + MAX_DEPTH;
    if bound <= fuel {
      RequestWithFuel(w, routes, params, bound, fuel);
    } else {
      RequestWithFuel(w, routes, params, fuel, bound);
    }
  }

  /**
   Whenever plain evaluation ends within 32 levels, `solve` ends the same way:
   neither the cache nor the depth limit can be told apart from no cache and no limit.
   */
  lemma {:induction false} SolveCompletesPlainEvaluation(w: World, routes: seq<Dependency>, params: seq<ParamPlan>,
                                                         stream: bool)
    requires Deterministic(w) && DistinctNames(params)
    requires !EvaluateRequest(w, routes, params, 32).OutOfFuel?
    ensures var s := Solve(w, routes, params, stream);
            EvaluateRequest(w, routes, params, 32) ==
            match s.result
            case Ok(call) => Done(DependencyValues(s.state, call))
            case Err(e) => Failed(e)
  {
    var s := Solve(w, routes, params, stream);
    CacheTransparency(w, routes, params, stream, 32);
    var fuel := |s.state.instances| + 33;
    CacheTransparency(w, routes, params, stream, fuel);
    EvaluateRequestMonotone(w, routes, params, 32, fuel);
  }
}
