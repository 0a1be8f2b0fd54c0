/**
 What a request comes to, from its endpoint and configuration: which path it
 takes, what its handler is given, and what becomes of the handler's reply.
 */
module Requests {
  import opened Wrappers
  import opened Scanner
  import opened Injection
  import opened Invocation
  import opened Journal
  import opened Binding
  import opened Teardown
  import opened Lifecycle
  import opened LifecycleOrder

  // ----- The checks and the paths

  /** Neither the endpoint's intent scope nor a text policy turns the request away. */
  predicate Passes(c: Config, ep: Endpoint) {
    ep.scope != Some(false) && (c.scan.None? || c.scan.value.None?)
  }

  /** No workflow; and no model, no harness, or an endpoint at the manual autonomy level. */
  predicate RunsHandler(c: Config, ep: Endpoint) {
    ep.workflow.None? && (!c.hasLlm || c.scan.None? || ep.manual)
  }

  function Checks(c: Config, ep: Endpoint): seq<Event> {
    (if ep.scope.Some? then [ScopeChecked(true)] else []) + (if c.scan.Some? then [TextScanned(true)] else [])
  }

  predicate EndsWith(trace: seq<Event>, tail: seq<Event>) {
    |tail| <= |trace| && trace[|trace| - |tail|..] == tail
  }

  /** A response is followed by its turn, its tasks and its metric. */
  function Tail(turn: bool, tasks: seq<nat>, status: string): seq<Event> {
    [TurnAdded(turn), SessionSaved] + TaskEvents(tasks) + [Recorded(status)]
  }

  /** A request that a check turns away does nothing else. */
  lemma {:induction false} TurnedAway(c: Config, ep: Endpoint)
    ensures ep.scope == Some(false) ==>
              Process(c, ep) == Run([ScopeChecked(false)], Err(Exception(true, "intent_scope")))
    ensures ep.scope == None && c.scan.Some? && c.scan.value.Some? ==>
              Process(c, ep) == Run([TextScanned(false)], Err(c.scan.value.value))
    ensures ep.scope == Some(true) && c.scan.Some? && c.scan.value.Some? ==>
              Process(c, ep) == Run([ScopeChecked(true), TextScanned(false)], Err(c.scan.value.value))
  {
  }

  /** What a path other than the handler's did, and what followed. */
  predicate TookPath(run: Run, checks: seq<Event>, path: Event, outcome: Result<Response, Exception>) {
    && run.outcome == outcome
    && run.trace == checks + [path]
       + match outcome
         case Err(_) => []
         case Ok(JsonResponse(status)) => Tail(false, [], status)
         case Ok(FileResponse) => Tail(true, [], "completed")
  }

  lemma {:induction false} HandlerPathOnly(c: Config, ep: Endpoint)
    requires RunsHandler(c, ep) && Passes(c, ep)
    ensures Checks(c, ep) <= Process(c, ep).trace
    ensures WorkflowRun !in Process(c, ep).trace && HarnessRun !in Process(c, ep).trace
  {
    var direct := ExecuteDirectly(c, ep);
    NeitherOther(ep, |Routed(c, ep).state.instances|, Solved(c, ep));
    MiddleMembers(c, ep, WorkflowRun);
    MiddleMembers(c, ep, HarnessRun);
    AdmittedTrace(c, ep, direct);
  }

  lemma {:induction false} NeitherOther(ep: Endpoint, routed: nat, s: Step<HandlerCall>)
    ensures WorkflowRun !in Handle(ep, routed, s).trace && HarnessRun !in Handle(ep, routed, s).trace
  {
  }

  /** An admitted request on the handler's path: the checks, what the path did, and what follows its response. */
  lemma {:induction false} AdmittedTrace(c: Config, ep: Endpoint, direct: Executed)
    requires RunsHandler(c, ep) && Passes(c, ep) && direct == ExecuteDirectly(c, ep)
    ensures Process(c, ep).outcome == direct.outcome
    ensures Process(c, ep).trace == Checks(c, ep) + direct.trace
              + match direct.outcome
                case Err(_) => []
                case Ok(JsonResponse(status)) => Tail(false, direct.tasks, status)
                case Ok(FileResponse) => Tail(true, direct.tasks, "completed")
  {
    assert TakesDirectPath(c, ep);
    assert ExecuteIntent(c, ep) == Dispatch(c, ep, direct);
    AdmittedParts(c, ep, direct);
  }

  lemma {:induction false} AdmittedParts(c: Config, ep: Endpoint, direct: Executed)
    requires RunsHandler(c, ep) && Passes(c, ep)
    ensures var r := Surround(ep, Dispatch(c, ep, direct));
            && r.outcome == direct.outcome
            && r.trace == Checks(c, ep) + direct.trace
               + match direct.outcome
                 case Err(_) => []
                 case Ok(JsonResponse(status)) => Tail(false, direct.tasks, status)
                 case Ok(FileResponse) => Tail(true, direct.tasks, "completed")
  {
    var checked := if ep.scope.Some? then [ScopeChecked(true)] else [];
    var scanned := if c.scan.Some? then [TextScanned(true)] else [];
    assert Dispatch(c, ep, direct) == Executed(scanned + direct.trace, direct.outcome, direct.tasks);
    assert checked + (scanned + direct.trace) == Checks(c, ep) + direct.trace;
    if direct.outcome.Ok? {
      TailFollows(direct.outcome.value, direct.tasks);
    }
  }

  lemma {:induction false} TailFollows(response: Response, tasks: seq<nat>)
    ensures Afterwards(response, tasks) ==
            match response
            case JsonResponse(status) => Tail(false, tasks, status)
            case FileResponse => Tail(true, tasks, "completed")
  {
  }

  lemma {:induction false} OtherPath(c: Config, ep: Endpoint, events: seq<Event>, path: Event,
                                     outcome: Result<Response, Exception>)
    requires Passes(c, ep)
    requires events == (if c.scan.Some? then [TextScanned(true)] else []) + [path]
    ensures TookPath(Surround(ep, Executed(events, outcome, [])), Checks(c, ep), path, outcome)
  {
    var checked := if ep.scope.Some? then [ScopeChecked(true)] else [];
    assert checked + events == Checks(c, ep) + [path];
  }

  /** An admitted request takes exactly one path, by its endpoint and configuration. */
  lemma {:induction false} PathTaken(c: Config, ep: Endpoint)
    requires Passes(c, ep)
    ensures ep.workflow.Some? ==> TookPath(Process(c, ep), Checks(c, ep), WorkflowRun, ep.workflow.value)
    ensures ep.workflow.None? && c.hasLlm && c.scan.Some? && !ep.manual ==>
              TookPath(Process(c, ep), Checks(c, ep), HarnessRun, ep.harness)
    ensures RunsHandler(c, ep) ==>
              && Checks(c, ep) <= Process(c, ep).trace
              && WorkflowRun !in Process(c, ep).trace && HarnessRun !in Process(c, ep).trace
              && (HandlerInvoked in Process(c, ep).trace <==> Solved(c, ep).result.Ok?)
  {
    var scanned := if c.scan.Some? then [TextScanned(true)] else [];
    if ep.workflow.Some? {
      OtherPath(c, ep, scanned + [WorkflowRun], WorkflowRun, ep.workflow.value);
    } else if c.hasLlm && c.scan.Some? && !ep.manual {
      OtherPath(c, ep, scanned + [HarnessRun], HarnessRun, ep.harness);
    }
    if RunsHandler(c, ep) {
      DirectPathHandler(c, ep);
      HandlerPathOnly(c, ep);
    }
  }

  // ----- When the dependencies fail

  /** Nothing but checks and provider calls. */
  predicate OnlyCalls(trace: seq<Event>) {
    forall i :: 0 <= i < |trace| ==>
      || trace[i].ScopeChecked? || trace[i].TextScanned?
      || trace[i].RouteCalled? || trace[i].ParamCalled? || trace[i].ProviderFailed?
  }

  predicate Names(trace: seq<Event>, e: SolveError) {
    forall i :: 0 <= i < |trace| && trace[i].ProviderFailed? ==> e.ProviderRaised? && trace[i].provider == e.provider
  }

  lemma {:induction false} FailedTrace(ep: Endpoint, routed: nat, s: Step<HandlerCall>)
    requires s.result.Err?
    ensures var x, e := Handle(ep, routed, s), s.result.error;
            && x.outcome == Err(if e.ProviderRaised? then e.error else Exception(true, "DependencyResolutionError"))
            && OnlyCalls(x.trace) && Names(x.trace, e)
            && (e.ProviderRaised? ==> ProviderFailed(e.provider) in x.trace)
  {
  }

  lemma {:induction false} ChecksOnly(c: Config, ep: Endpoint, events: seq<Event>, e: SolveError)
    requires OnlyCalls(events) && Names(events, e)
    ensures OnlyCalls(Checks(c, ep) + events) && Names(Checks(c, ep) + events, e)
  {
  }

  /**
   A request whose dependencies cannot be resolved ends with the provider's
   exception, or with the framework's resolution error; but for the checks and
   the provider calls nothing happens in it, and so the handler is not called,
   nothing is torn down, and nothing follows.
   */
  lemma {:induction false} SolveFailure(c: Config, ep: Endpoint, e: SolveError)
    requires RunsHandler(c, ep) && Passes(c, ep) && Solved(c, ep).result == Err(e)
    ensures Process(c, ep).outcome
         == Err(if e.ProviderRaised? then e.error else Exception(true, "DependencyResolutionError"))
    ensures OnlyCalls(Process(c, ep).trace) && Names(Process(c, ep).trace, e)
    ensures e.ProviderRaised? ==> ProviderFailed(e.provider) in Process(c, ep).trace
  {
    var direct := ExecuteDirectly(c, ep);
    AdmittedTrace(c, ep, direct);
    FailedTrace(ep, |Routed(c, ep).state.instances|, Solved(c, ep));
    ChecksOnly(c, ep, direct.trace, e);
  }

  // ----- What the handler is given, and what becomes of its reply

  predicate NoTeardownFails(ep: Endpoint, stack: seq<Ref>) {
    forall i :: 0 <= i < |stack| ==> ep.close(stack[i]).None?
  }

  /** What was put on an AgentTasks object, if there is one. */
  predicate TasksOn(added: map<nat, seq<nat>>, serial: Option<nat>, tasks: seq<nat>) {
    tasks == if serial.Some? && serial.value in added then added[serial.value] else []
  }

  /** The outcome a reply calls for, and what follows a response. */
  ghost predicate Answered(ep: Endpoint, replied: Result<Reply, Exception>, tasks: seq<nat>, run: Run) {
    match replied
    case Err(e) =>
      if e.fromFramework then run.outcome == Err(e)
      else run.outcome == Ok(JsonResponse("error")) && EndsWith(run.trace, Tail(false, tasks, "error"))
    case Ok(RawResponse(_)) =>
      run.outcome == Ok(FileResponse) && EndsWith(run.trace, Tail(true, tasks, "completed"))
    case Ok(AgentReply(status, result)) =>
      if ep.validate(result).Some? then run.outcome == Err(ep.validate(result).value)
      else run.outcome == Ok(JsonResponse(status)) && EndsWith(run.trace, Tail(false, tasks, status))
    case Ok(PlainReply(result)) =>
      if ep.validate(result).Some? then run.outcome == Err(ep.validate(result).value)
      else run.outcome == Ok(JsonResponse("completed")) && EndsWith(run.trace, Tail(false, tasks, "completed"))
  }

  lemma {:induction false} ResponseFollowed(checks: seq<Event>, events: seq<Event>, tail: seq<Event>)
    ensures EndsWith(checks + events + tail, tail)
  {
  }

  lemma {:induction false} HandleAnswered(ep: Endpoint, routed: nat, s: Step<HandlerCall>, ran: Ran, checks: seq<Event>,
                                          run: Run, tasks: seq<nat>)
    requires s.result.Ok? && Invoke(ep.handler, s.result.value, s.state, ep.close) == ran
    requires TasksOn(ran.added, s.result.value.tasks, tasks)
    requires var x := Handle(ep, routed, s);
             && run.outcome == x.outcome
             && run.trace == checks + x.trace
                + match x.outcome
                  case Err(_) => []
                  case Ok(JsonResponse(status)) => Tail(false, x.tasks, status)
                  case Ok(FileResponse) => Tail(true, x.tasks, "completed")
    ensures Answered(ep, ran.replied, tasks, run)
  {
    var x := Handle(ep, routed, s);
    assert x.tasks == tasks;
    match x.outcome
    case Err(_) =>
    case Ok(JsonResponse(status)) => ResponseFollowed(checks, x.trace, Tail(false, tasks, status));
    case Ok(FileResponse) => ResponseFollowed(checks, x.trace, Tail(true, tasks, "completed"));
  }

  lemma {:induction false} InvokedAnswered(c: Config, ep: Endpoint, ran: Ran, tasks: seq<nat>)
    requires RunsHandler(c, ep) && Passes(c, ep) && Solved(c, ep).result.Ok?
    requires Invoke(ep.handler, Solved(c, ep).result.value, Solved(c, ep).state, ep.close) == ran
    requires TasksOn(ran.added, Solved(c, ep).result.value.tasks, tasks)
    ensures Answered(ep, ran.replied, tasks, Process(c, ep))
  {
    AdmittedTrace(c, ep, ExecuteDirectly(c, ep));
    HandleAnswered(ep, |Routed(c, ep).state.instances|, Solved(c, ep), ran, Checks(c, ep), Process(c, ep), tasks);
  }

  lemma {:induction false} NothingUnwound(ep: Endpoint, stack: seq<Ref>)
    requires NoTeardownFails(ep, stack)
    ensures Unwound(ep.close, stack, None) == None
  {
    OldestFailureWins(ep.close, stack, None);
  }

  /**
   A bindable handler is run on the arguments `solve` prepared, which give
   each parameter what it asks for, while nothing has been closed; its reply
   decides the response, and the tasks it put on the last AgentTasks object
   it was given follow.
   */
  lemma {:induction false} HandlerReply(c: Config, ep: Endpoint, tasks: seq<nat>, i: nat)
    requires RunsHandler(c, ep) && Passes(c, ep) && Solved(c, ep).result.Ok?
    requires SignatureNamesDistinct(ep.handler.signature) && Bindable(ep.handler.signature, false)
    requires NoTeardownFails(ep, Solved(c, ep).state.exitStack)
    requires var call, st := Solved(c, ep).result.value, Solved(c, ep).state;
             TasksOn(ep.handler.run(call.positional, call.kwargs, st.instances, []).added, call.tasks, tasks)
    ensures var call, st := Solved(c, ep).result.value, Solved(c, ep).state;
            var seen := ep.handler.run(call.positional, call.kwargs, st.instances, []);
            && Answered(ep, seen.replied, tasks, Process(c, ep))
            && (i < |ep.handler.signature| ==> Receives(ep.handler.signature, false, call, i))
  {
    var s := Solved(c, ep);
    CallBinding(c.world, ep.routes, ep.handler.signature, false, i);
    NothingUnwound(ep, s.state.exitStack);
    var seen := ep.handler.run(s.result.value.positional, s.result.value.kwargs, s.state.instances, []);
    InvokedAnswered(c, ep, seen, tasks);
  }

  /** The tasks of a handler that was run on the prepared arguments; of one that could not be called, none. */
  ghost predicate LeftTasks(c: Config, ep: Endpoint, tasks: seq<nat>)
    requires Solved(c, ep).result.Ok?
  {
    var call, st := Solved(c, ep).result.value, Solved(c, ep).state;
    if Bindable(ep.handler.signature, false)
    then TasksOn(ep.handler.run(call.positional, call.kwargs, st.instances, []).added, call.tasks, tasks)
    else tasks == []
  }

  /**
   If teardowns fail, whatever the handler did, the request ends as if the
   handler had raised the exception of the oldest object whose teardown
   failed; the handler's tasks stay.
   */
  lemma {:induction false} TeardownFailure(c: Config, ep: Endpoint, oldest: nat, e: Exception, tasks: seq<nat>)
    requires RunsHandler(c, ep) && Passes(c, ep) && Solved(c, ep).result.Ok?
    requires SignatureNamesDistinct(ep.handler.signature) && LeftTasks(c, ep, tasks)
    requires oldest < |Solved(c, ep).state.exitStack| && ep.close(Solved(c, ep).state.exitStack[oldest]) == Some(e)
    requires NoTeardownFails(ep, Solved(c, ep).state.exitStack[..oldest])
    ensures Answered(ep, Err(e), tasks, Process(c, ep))
  {
    var s := Solved(c, ep);
    var call := s.result.value;
    CallBinding(c.world, ep.routes, ep.handler.signature, false, 0);
    OldestFailureWins(ep.close, s.state.exitStack, None);
    var ran := if Bindable(ep.handler.signature, false)
    then ep.handler.run(call.positional, call.kwargs, s.state.instances, []) else NOT_BOUND;
    InvokedAnswered(c, ep, ran.(replied := Err(e)), tasks);
  }
}
