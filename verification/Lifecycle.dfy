/**
 One request through `process_intent`: the checks, the dependency solver, the
 handler, the teardowns, the session turn and the background tasks.
 */
module Lifecycle {
  import opened Wrappers
  import opened Scanner
  import opened Injection
  import opened Invocation
  import opened Journal
  import I = Injector

  datatype Response = JsonResponse(status: string) | FileResponse

  /** `scan` is None without a harness; otherwise it says whether the text policies raise. */
  datatype Config = Config(world: World, scan: Option<Option<Exception>>, hasLlm: bool)

  /**
   `scope` is None when the endpoint has no intent scope, otherwise whether it
   matches.  `workflow` and `harness` stand for the engines behind those paths,
   `validate` for the endpoint's response model, and `close` for the teardown
   code of generator dependencies.
   */
  datatype Endpoint = Endpoint(
    scope: Option<bool>,
    workflow: Option<Result<Response, Exception>>,
    harness: Result<Response, Exception>,
    manual: bool,
    routes: seq<Dependency>,
    handler: Handler,
    validate: Object -> Option<Exception>,
    close: Ref -> Option<Exception>)

  datatype Run = Run(trace: seq<Event>, outcome: Result<Response, Exception>)

  /** A response together with the background tasks that run after it. */
  datatype Executed = Executed(trace: seq<Event>, outcome: Result<Response, Exception>, tasks: seq<nat>)

  const SCOPE_VIOLATION := Exception(true, "intent_scope")

  function ErrorOf(e: SolveError): Exception {
    match e
    case ProviderRaised(_, error) => error
    case _ => Exception(true, "DependencyResolutionError")
  }

  // ----- The trace and outcome of a request

  /** What `_execute_handler_directly` makes of the handler's reply or exception. */
  function Respond(ep: Endpoint, replied: Result<Reply, Exception>): Result<Response, Exception> {
    match replied
    case Err(e) => if e.fromFramework then Err(e) else Ok(JsonResponse("error"))
    case Ok(RawResponse(_)) => Ok(FileResponse)
    case Ok(AgentReply(status, result)) =>
      if ep.validate(result).Some? then Err(ep.validate(result).value) else Ok(JsonResponse(status))
    case Ok(PlainReply(result)) =>
      if ep.validate(result).Some? then Err(ep.validate(result).value) else Ok(JsonResponse("completed"))
  }

  /** What becomes of a request whose dependencies were solved as `s`, the first `routed` calls for its routes. */
  function Handle(ep: Endpoint, routed: nat, s: Step<HandlerCall>): Executed {
    match s.result
    case Err(e) => Executed(SolveEvents(routed, |s.state.instances|, Some(e)), Err(ErrorOf(e)), [])
    case Ok(call) =>
      var ran := Invoke(ep.handler, call, s.state, ep.close);
      Executed(SolveEvents(routed, |s.state.instances|, None)
               + [HandlerInvoked] + TeardownEvents(Reversed(s.state.exitStack)),
               Respond(ep, ran.replied),
               ran.Pending(call.tasks))
  }

  function ExecuteDirectly(c: Config, ep: Endpoint): Executed {
    Handle(ep,
           |SolveRoutes(c.world, ep.routes, EMPTY).state.instances|,
           Solve(c.world, ep.routes, Scan(ep.handler.signature).params, false))
  }

  predicate TakesDirectPath(c: Config, ep: Endpoint) {
    ep.workflow.None? && !(c.hasLlm && c.scan.Some? && !ep.manual)
  }

  /** The text scan, then the path the endpoint takes; `direct` is what the handler path would do. */
  function Dispatch(c: Config, ep: Endpoint, direct: Executed): Executed {
    if c.scan.Some? && c.scan.value.Some? then
      Executed([TextScanned(false)], Err(c.scan.value.value), [])
    else
      var scanned := if c.scan.Some? then [TextScanned(true)] else [];
      if ep.workflow.Some? then Executed(scanned + [WorkflowRun], ep.workflow.value, [])
      else if !TakesDirectPath(c, ep) then Executed(scanned + [HarnessRun], ep.harness, [])
      else direct.(trace := scanned + direct.trace)
  }

  function ExecuteIntent(c: Config, ep: Endpoint): Executed {
    Dispatch(c, ep, ExecuteDirectly(c, ep))
  }

  /** Everything that follows a response: the session turn, its tasks, the metric. */
  function Afterwards(response: Response, tasks: seq<nat>): seq<Event> {
    [TurnAdded(response.FileResponse?), SessionSaved]
    + TaskEvents(tasks)
    + [Recorded(if response.JsonResponse? then response.status else "completed")]
  }

  /** Whatever the execution gave, between the scope check and the session turn. */
  function Surround(ep: Endpoint, x: Executed): Run {
    var checked := if ep.scope.Some? then [ScopeChecked(true)] else [];
    match x.outcome
    case Err(e) => Run(checked + x.trace, Err(e))
    case Ok(response) => Run(checked + x.trace + Afterwards(response, x.tasks), Ok(response))
  }

  function Process(c: Config, ep: Endpoint): Run {
    if ep.scope == Some(false) then Run([ScopeChecked(false)], Err(SCOPE_VIOLATION))
    else Surround(ep, ExecuteIntent(c, ep))
  }

  // ----- The same, as it runs

  class AgenticApp {
    const config: Config
    const journal: Journal

    constructor (c: Config, j: Journal)
      ensures config == c && journal == j
    {
      config, journal := c, j;
    }

    method ProcessIntent(ep: Endpoint) returns (r: Result<Response, Exception>)
      modifies journal
      ensures r == Process(config, ep).outcome
      ensures journal.events == old(journal.events) + Process(config, ep).trace
    {
      if ep.scope.Some? {
        journal.events := journal.events + [ScopeChecked(ep.scope.value)];
        if !ep.scope.value {
          return Err(SCOPE_VIOLATION);
        }
      }
      ghost var checked := journal.events;
      var outcome, tasks := ExecuteIntentStep(ep);
      ghost var executed := journal.events;
      if outcome.Ok? {
        FinishRequest(outcome.value, tasks);
      }
      r := outcome;
      SurroundTrace(ep, ExecuteIntent(config, ep), old(journal.events), checked, executed, journal.events);
    }

    method FinishRequest(response: Response, tasks: seq<nat>)
      modifies journal
      ensures journal.events == old(journal.events) + Afterwards(response, tasks)
    {
      var requestStatus := "completed";
      match response {
        case JsonResponse(status) =>
          journal.events := journal.events + [TurnAdded(false)];
          if status != "completed" {
            requestStatus := status;
          }
        case FileResponse =>
          journal.events := journal.events + [TurnAdded(true)];
      }
      journal.events := journal.events + [SessionSaved];
      if tasks != [] {
        RunTasks(tasks);
      }
      journal.events := journal.events + [Recorded(requestStatus)];
    }

    /** Background tasks run in the order they were added; a failing one does not stop the rest. */
    method RunTasks(tasks: seq<nat>)
      modifies journal
      ensures journal.events == old(journal.events) + TaskEvents(tasks)
    {
      for i := 0 to |tasks|
        invariant journal.events == old(journal.events) + TaskEvents(tasks)[..i]
      {
        journal.events := journal.events + [TaskRun(tasks[i])];
      }
    }

    method ExecuteIntentStep(ep: Endpoint) returns (r: Result<Response, Exception>, tasks: seq<nat>)
      modifies journal
      ensures r == ExecuteIntent(config, ep).outcome && tasks == ExecuteIntent(config, ep).tasks
      ensures journal.events == old(journal.events) + ExecuteIntent(config, ep).trace
    {
      if config.scan.Some? {
        journal.events := journal.events + [TextScanned(config.scan.value.None?)];
        if config.scan.value.Some? {
          return Err(config.scan.value.value), [];
        }
      }
      ghost var scanned := journal.events;
      if ep.workflow.Some? {
        journal.events := journal.events + [WorkflowRun];
        return ep.workflow.value, [];
      }
      if config.hasLlm && config.scan.Some? && !ep.manual {
        journal.events := journal.events + [HarnessRun];
        return ep.harness, [];
      }
      r, tasks := ExecuteHandlerDirectly(ep);
      DispatchTrace(config, ep, ExecuteDirectly(config, ep), old(journal.events), scanned, journal.events);
    }

    method ExecuteHandlerDirectly(ep: Endpoint) returns (r: Result<Response, Exception>, tasks: seq<nat>)
      modifies journal
      ensures r == ExecuteDirectly(config, ep).outcome && tasks == ExecuteDirectly(config, ep).tasks
      ensures journal.events == old(journal.events) + ExecuteDirectly(config, ep).trace
    {
      var plan := ScanHandler(ep.handler.signature);
      var injector := new I.Injector(config.world, journal);
      var solved := injector.Solve(ep.routes, plan.params, false);
      if solved.Err? {
        return Err(ErrorOf(solved.error)), [];
      }
      ghost var routed, solving := |SolveRoutes(config.world, ep.routes, EMPTY).state.instances|, journal.events;
      r, tasks := InvokeAndRespond(ep, injector);
      HandleTrace(ep, routed, Solve(config.world, ep.routes, plan.params, false), old(journal.events), solving,
                  journal.events);
    }

    method InvokeAndRespond(ep: Endpoint, injector: I.Injector)
      returns (r: Result<Response, Exception>, tasks: seq<nat>)
      requires injector.journal == journal && injector.tornDown == []
      modifies journal, injector`exitStack, injector`tornDown
      ensures var ran := Invoke(ep.handler, injector.call, old(injector.Snapshot()), ep.close);
              r == Respond(ep, ran.replied) && tasks == ran.Pending(injector.call.tasks)
      ensures journal.events == old(journal.events) + [HandlerInvoked]
                             + TeardownEvents(Reversed(old(injector.exitStack)))
    {
      var ran := injector.InvokeHandler(ep.handler, ep.close);
      r := MakeResponse(ep, ran.replied);
      tasks := ran.Pending(injector.call.tasks);
    }

    method MakeResponse(ep: Endpoint, replied: Result<Reply, Exception>) returns (r: Result<Response, Exception>)
      ensures r == Respond(ep, replied)
    {
      if replied.Err? {
        if replied.error.fromFramework {
          return Err(replied.error);
        }
        return Ok(JsonResponse("error"));
      }
      match replied.value
      case RawResponse(_) => r := Ok(FileResponse);
      case AgentReply(status, result) =>
        var invalid := ep.validate(result);
        r := if invalid.Some? then Err(invalid.value) else Ok(JsonResponse(status));
      case PlainReply(result) =>
        var invalid := ep.validate(result);
        r := if invalid.Some? then Err(invalid.value) else Ok(JsonResponse("completed"));
    }
  }

  /** Appending step by step gives the trace that `Handle` writes in one piece. */
  lemma {:induction false} HandleTrace(ep: Endpoint, routed: nat, s: Step<HandlerCall>, start: seq<Event>,
                                       solved: seq<Event>, end: seq<Event>)
    requires s.result.Ok? && solved == start + SolveEvents(routed, |s.state.instances|, None)
    requires end == solved + [HandlerInvoked] + TeardownEvents(Reversed(s.state.exitStack))
    ensures end == start + Handle(ep, routed, s).trace
  {
  }

  /** Appending step by step gives the trace that `Dispatch` writes in one piece. */
  lemma {:induction false} DispatchTrace(c: Config, ep: Endpoint, direct: Executed, start: seq<Event>,
                                         scanned: seq<Event>, end: seq<Event>)
    requires TakesDirectPath(c, ep) && !(c.scan.Some? && c.scan.value.Some?)
    requires scanned == start + (if c.scan.Some? then [TextScanned(true)] else [])
    requires end == scanned + direct.trace
    ensures end == start + Dispatch(c, ep, direct).trace
  {
  }

  /** Appending step by step gives the trace that `Surround` writes in one piece. */
  lemma {:induction false} SurroundTrace(ep: Endpoint, x: Executed, start: seq<Event>,
                                         checked: seq<Event>, executed: seq<Event>, end: seq<Event>)
    requires checked == start + (if ep.scope.Some? then [ScopeChecked(true)] else [])
    requires executed == checked + x.trace
    requires end == if x.outcome.Ok? then executed + Afterwards(x.outcome.value, x.tasks) else executed
    ensures end == start + Surround(ep, x).trace
  {
  }
}
