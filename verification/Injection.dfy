/**
 The dependency solver as functions on one request's state.  `Injector` runs
 the same steps imperatively and is proved equal to these functions; the
 theorems about the solver are lemmas about them.

 Provider calls are nondeterministic and may raise: the world answers the
 n-th completed invocation of a request by an arbitrary function of n, the
 provider and its keyword arguments.  An object a provider returned is named
 by the number of the invocation that returned it (a `Ref`).
 */
module Injection {
  import opened Wrappers
  import opened Scanner

  const MAX_DEPTH: nat := 32

  /** A Python object, by identity. */
  datatype Object = Object(identity: nat)

  datatype Outcome = Returned(value: Object) | Raised(error: Exception)

  type Ref = nat

  datatype World = World(
    signature: Provider -> seq<Parameter>,
    qualname: Provider -> string,
    isGenerator: Provider -> bool,
    invoke: (nat, Provider, map<string, Object>) -> Outcome,
    overrides: map<Provider, Provider>)
  {
    /** `overrides.get(callable, callable)`: one lookup, not followed transitively. */
    function Effective(p: Provider): Provider {
      if p in overrides then overrides[p] else p
    }

    function Labels(chain: seq<Provider>): seq<string> {
      seq(|chain|, i requires 0 <= i < |chain| => qualname(chain[i]))
    }

    function Params(p: Provider): seq<ParamPlan> {
      Scan(signature(p)).params
    }
  }

  /** One completed provider call: what was called, for which kind of reference, with what. */
  datatype Instance = Instance(provider: Provider, shared: bool, args: map<string, Ref>, value: Object)

  /** One resolved reference: the effective provider, its `use_cache` flag, the object it got. */
  datatype Reference = Reference(provider: Provider, shared: bool, target: Ref)

  datatype State = State(
    cache: map<Provider, Ref>,
    instances: seq<Instance>,
    exitStack: seq<Ref>,
    references: seq<Reference>)
  {
    function Refer(p: Provider, shared: bool, r: Ref): State {
      this.(references := references + [Reference(p, shared, r)])
    }

    /** A provider returned: a generator leaves its teardown on the exit stack. */
    function Create(w: World, p: Provider, shared: bool, args: map<string, Ref>, value: Object): State {
      this.(instances := instances + [Instance(p, shared, args, value)],
            exitStack := if w.isGenerator(p) then exitStack + [|instances|] else exitStack)
    }

    function Remember(p: Provider, shared: bool, r: Ref): State {
      if shared then this.(cache := cache[p := r]) else this
    }

    function Values(args: map<string, Ref>): map<string, Object> {
      map n | n in args && args[n] < |instances| :: instances[args[n]].value
    }
  }

  const EMPTY := State(map[], [], [], [])

  datatype SolveError =
    | DepthExceeded(chain: seq<string>)
    | NoCallable(name: string)
    | ProviderRaised(provider: Provider, error: Exception)

  datatype Step<T> = Step(state: State, result: Result<T, SolveError>)

  function FailureOf<T>(r: Result<T, SolveError>): Option<SolveError> {
    if r.Ok? then None else Some(r.error)
  }

  // ----- Resolving one reference

  function CallProvider(w: World, p: Provider, shared: bool, args: map<string, Ref>, st: State): Step<Ref> {
    match w.invoke(|st.instances|, p, st.Values(args))
    case Raised(e) => Step(st, Err(ProviderRaised(p, e)))
    case Returned(value) => Step(st.Create(w, p, shared, args, value), Ok(|st.instances|))
  }

  function CallAndRemember(w: World, p: Provider, shared: bool, args: map<string, Ref>, st: State): Step<Ref> {
    var s := CallProvider(w, p, shared, args, st);
    if s.result.Err? then s
    else Step(s.state.Remember(p, shared, s.result.value).Refer(p, shared, s.result.value), s.result)
  }

  function Resolve(w: World, dep: Dependency, chain: seq<Provider>, st: State): Step<Ref>
    requires |chain| <= MAX_DEPTH
    decreases MAX_DEPTH - |chain|, 0
  {
    var p := w.Effective(dep.callable);
    var chain' := chain + [p];
    if |chain'| > MAX_DEPTH then
      Step(st, Err(DepthExceeded(w.Labels(chain'))))
    else if dep.useCache && p in st.cache then
      Step(st.Refer(p, true, st.cache[p]), Ok(st.cache[p]))
    else
      var s := ResolveParams(w, w.Params(p), chain', st, map[]);
      match s.result
      case Err(e) => Step(s.state, Err(e))
      case Ok(args) => CallAndRemember(w, p, dep.useCache, args, s.state)
  }

  function ResolveParams(w: World, params: seq<ParamPlan>, chain: seq<Provider>, st: State, args: map<string, Ref>)
    : Step<map<string, Ref>>
    requires |chain| <= MAX_DEPTH
    decreases MAX_DEPTH - |chain|, 1 + |params|
  {
    if params == [] then Step(st, Ok(args))
    else if !params[0].kind.Depends? then ResolveParams(w, params[1..], chain, st, args)
    else if params[0].dependency.None? then Step(st, Err(NoCallable(params[0].name)))
    else
      var s := Resolve(w, params[0].dependency.value, chain, st);
      match s.result
      case Err(e) => Step(s.state, Err(e))
      case Ok(r) => ResolveParams(w, params[1..], chain, s.state, args[params[0].name := r])
  }

  // ----- Solving a handler's plan

  datatype Arg =
    | IntentArg
    | ContextArg
    | TasksArg(serial: nat)
    | FilesArg
    | HtmxArg
    | StreamArg
    | Resolved(ref: Ref)

  /** `tasks` is the AgentTasks object created last, if any was. */
  datatype HandlerCall = HandlerCall(kwargs: map<string, Arg>, positional: seq<Arg>, tasks: Option<nat>)
  {
    function With(name: string, arg: Arg): HandlerCall {
      this.(kwargs := kwargs[name := arg])
    }

    function NextTasks(): nat {
      if tasks.None? then 0 else tasks.value + 1
    }

    function WithTasks(name: string): HandlerCall {
      this.(tasks := Some(NextTasks()), kwargs := kwargs[name := TasksArg(NextTasks())])
    }

    function WithPositional(): HandlerCall {
      this.(positional := positional + [if positional == [] then IntentArg else ContextArg])
    }
  }

  const NO_CALL := HandlerCall(map[], [], None)

  function SolveRoutes(w: World, routes: seq<Dependency>, st: State): Step<()> {
    if routes == [] then Step(st, Ok(()))
    else
      var s := Resolve(w, routes[0], [], st);
      match s.result
      case Err(e) => Step(s.state, Err(e))
      case Ok(_) => SolveRoutes(w, routes[1..], s.state)
  }

  /** What a parameter that needs no dependency adds to the call. */
  function FillBuiltIn(param: ParamPlan, stream: bool, call: HandlerCall): HandlerCall
    requires !param.kind.Depends?
  {
    match param.kind
    case Intent => call.With(param.name, IntentArg)
    case Context => call.With(param.name, ContextArg)
    case AgentTasks => call.WithTasks(param.name)
    case UploadedFiles => call.With(param.name, FilesArg)
    case HtmxHeaders => call.With(param.name, HtmxArg)
    case AgentStream => if stream then call.With(param.name, StreamArg) else call
    case PositionalLegacy => call.WithPositional()
  }

  predicate DistinctNames(params: seq<ParamPlan>) {
    forall i, j :: 0 <= i < j < |params| ==> params[i].name != params[j].name
  }

  predicate Unused(params: seq<ParamPlan>, names: set<string>) {
    forall i :: 0 <= i < |params| ==> params[i].name !in names
  }

  /** Filling the first parameter leaves the other names alone. */
  lemma {:induction false} FillAddsOneName(params: seq<ParamPlan>, stream: bool, call: HandlerCall)
    requires params != [] && !params[0].kind.Depends?
    requires DistinctNames(params) && Unused(params, call.kwargs.Keys)
    ensures var call' := FillBuiltIn(params[0], stream, call);
            && DistinctNames(params[1..]) && Unused(params[1..], call'.kwargs.Keys)
            && call'.kwargs.Keys <= call.kwargs.Keys + {params[0].name}
            && (forall n :: n in call.kwargs ==> n in call'.kwargs && call'.kwargs[n] == call.kwargs[n])
            && (params[0].name in call'.kwargs ==> !call'.kwargs[params[0].name].Resolved?)
  {
  }

  function SolvePlan(w: World, params: seq<ParamPlan>, stream: bool, st: State, call: HandlerCall): Step<HandlerCall> {
    if params == [] then Step(st, Ok(call))
    else if !params[0].kind.Depends? then
      SolvePlan(w, params[1..], stream, st, FillBuiltIn(params[0], stream, call))
    else if params[0].dependency.None? then Step(st, Err(NoCallable(params[0].name)))
    else
      var s := Resolve(w, params[0].dependency.value, [], st);
      match s.result
      case Err(e) => Step(s.state, Err(e))
      case Ok(r) => SolvePlan(w, params[1..], stream, s.state, call.With(params[0].name, Resolved(r)))
  }

  function Solve(w: World, routes: seq<Dependency>, params: seq<ParamPlan>, stream: bool): Step<HandlerCall> {
    var s := SolveRoutes(w, routes, EMPTY);
    match s.result
    case Err(e) => Step(s.state, Err(e))
    case Ok(_) => SolvePlan(w, params, stream, s.state, NO_CALL)
  }

  /** `Solve` from a given state. */
  function SolveFrom(w: World, routes: seq<Dependency>, params: seq<ParamPlan>, stream: bool, st: State)
    : Step<HandlerCall>
  {
    var s := SolveRoutes(w, routes, st);
    match s.result
    case Err(e) => Step(s.state, Err(e))
    case Ok(_) => SolvePlan(w, params, stream, s.state, NO_CALL)
  }
}
