/** What every request keeps: the order of its events, and exactly which events it has. */
module LifecycleOrder {
  import opened Wrappers
  import opened Scanner
  import opened Injection
  import opened Invocation
  import opened Journal
  import opened Binding
  import opened Topology
  import opened Teardown
  import opened Lifecycle

  // ----- Order

  function Stage(e: Event): nat {
    match e
    case ScopeChecked(_) => 0
    case TextScanned(_) => 1
    case RouteCalled(_) => 2
    case ParamCalled(_) => 3
    case ProviderFailed(_) => 4
    case HandlerInvoked => 5
    case WorkflowRun => 5
    case HarnessRun => 5
    case TornDown(_) => 6
    case TurnAdded(_) => 7
    case SessionSaved => 8
    case TaskRun(_) => 9
    case Recorded(_) => 10
  }

  /** Later stages follow earlier ones; calls go up, teardowns go down, only tasks repeat freely. */
  predicate Before(e: Event, f: Event) {
    || Stage(e) < Stage(f)
    || (e.RouteCalled? && f.RouteCalled? && e.ref < f.ref)
    || (e.ParamCalled? && f.ParamCalled? && e.ref < f.ref)
    || (e.TornDown? && f.TornDown? && e.ref > f.ref)
    || (e.TaskRun? && f.TaskRun?)
  }

  predicate InOrder(trace: seq<Event>) {
    forall i, j :: 0 <= i < j < |trace| ==> Before(trace[i], trace[j])
  }

  predicate Within(trace: seq<Event>, lo: nat, hi: nat) {
    forall i :: 0 <= i < |trace| ==> lo <= Stage(trace[i]) <= hi
  }

  predicate Segment(trace: seq<Event>, lo: nat, hi: nat) {
    InOrder(trace) && Within(trace, lo, hi)
  }

  lemma {:induction false} Joined(a: seq<Event>, b: seq<Event>, lo: nat, mid: nat, mid': nat, hi: nat)
    requires Segment(a, lo, mid) && Segment(b, mid', hi) && lo <= mid < mid' <= hi
    ensures Segment(a + b, lo, hi)
  {
  }

  lemma {:induction false} SolveInOrder(routed: nat, called: nat, failure: Option<SolveError>)
    ensures Segment(SolveEvents(routed, called, failure), 2, 4)
  {
    var a := CallEvents(true, 0, routed);
    var b := if routed <= called then CallEvents(false, routed, called) else [];
    Joined(a, b, 2, 2, 3, 3);
    Joined(a + b, FailureEvents(failure), 2, 3, 4, 4);
  }

  lemma {:induction false} HandleInOrder(ep: Endpoint, routed: nat, s: Step<HandlerCall>)
    requires forall i, j :: 0 <= i < j < |s.state.exitStack| ==>
               Reversed(s.state.exitStack)[i] > Reversed(s.state.exitStack)[j]
    ensures Segment(Handle(ep, routed, s).trace, 2, 6)
  {
    var failure := if s.result.Err? then Some(s.result.error) else None;
    var solved := SolveEvents(routed, |s.state.instances|, failure);
    var closed := TeardownEvents(Reversed(s.state.exitStack));
    SolveInOrder(routed, |s.state.instances|, failure);
    assert Segment([HandlerInvoked], 5, 5);
    Joined(solved, [HandlerInvoked], 2, 4, 5, 5);
    assert Segment(closed, 6, 6);
    Joined(solved + [HandlerInvoked], closed, 2, 5, 6, 6);
  }

  lemma {:induction false} DirectInOrder(c: Config, ep: Endpoint)
    ensures Segment(ExecuteDirectly(c, ep).trace, 2, 6)
  {
    var params := Scan(ep.handler.signature).params;
    TeardownSafety(c.world, ep.routes, params, false, 0);
    HandleInOrder(ep, |SolveRoutes(c.world, ep.routes, EMPTY).state.instances|,
                  Solve(c.world, ep.routes, params, false));
  }

  lemma {:induction false} AfterwardsInOrder(response: Response, tasks: seq<nat>)
    ensures Segment(Afterwards(response, tasks), 7, 10)
  {
    var turn := [TurnAdded(response.FileResponse?), SessionSaved];
    var ran := TaskEvents(tasks);
    Joined(turn, ran, 7, 8, 9, 9);
    Joined(turn + ran, [Recorded(if response.JsonResponse? then response.status else "completed")], 7, 9, 10, 10);
  }

  lemma {:induction false} DispatchInOrder(c: Config, ep: Endpoint, direct: Executed)
    requires Segment(direct.trace, 2, 6)
    ensures Segment(Dispatch(c, ep, direct).trace, 1, 6)
  {
    var scanned := if c.scan.Some? then [TextScanned(true)] else [];
    assert Segment(scanned, 1, 1);
    Joined(scanned, direct.trace, 1, 1, 2, 6);
  }

  lemma {:induction false} SurroundInOrder(ep: Endpoint, x: Executed)
    requires Segment(x.trace, 1, 6)
    ensures InOrder(Surround(ep, x).trace)
  {
    var checked := if ep.scope.Some? then [ScopeChecked(true)] else [];
    Joined(checked, x.trace, 0, 0, 1, 6);
    if x.outcome.Ok? {
      AfterwardsInOrder(x.outcome.value, x.tasks);
      Joined(checked + x.trace, Afterwards(x.outcome.value, x.tasks), 0, 6, 7, 10);
    }
  }

  /**
   In every request, on every path: scope check, text scan, route
   dependencies, parameter dependencies, handler, teardowns from the newest
   to the oldest, session turn, background tasks, metric, in this order and,
   the tasks aside, each at most once.
   */
  lemma {:induction false} EventsInOrder(c: Config, ep: Endpoint)
    ensures InOrder(Process(c, ep).trace)
  {
    DirectInOrder(c, ep);
    DispatchInOrder(c, ep, ExecuteDirectly(c, ep));
    SurroundInOrder(ep, ExecuteIntent(c, ep));
  }

  // ----- Presence

  predicate Admitted(c: Config, ep: Endpoint) {
    ep.scope != Some(false) && !(c.scan.Some? && c.scan.value.Some?)
  }

  function Solved(c: Config, ep: Endpoint): Step<HandlerCall> {
    Solve(c.world, ep.routes, Scan(ep.handler.signature).params, false)
  }

  function Routed(c: Config, ep: Endpoint): Step<()> {
    SolveRoutes(c.world, ep.routes, EMPTY)
  }

  lemma {:induction false} SolveEventsMembers(routed: nat, called: nat, failure: Option<SolveError>, k: Ref)
    requires routed <= called
    ensures RouteCalled(k) in SolveEvents(routed, called, failure) <==> k < routed
    ensures ParamCalled(k) in SolveEvents(routed, called, failure) <==> routed <= k < called
  {
    if k < routed {
      assert CallEvents(true, 0, routed)[k] == RouteCalled(k);
    } else if k < called {
      assert CallEvents(false, routed, called)[k - routed] == ParamCalled(k);
    }
  }

  lemma {:induction false} TeardownMembers(stack: seq<Ref>, k: Ref)
    ensures TornDown(k) in TeardownEvents(stack) <==> k in stack
  {
    if k in stack {
      var i :| 0 <= i < |stack| && stack[i] == k;
      assert TeardownEvents(stack)[i] == TornDown(k);
    }
  }

  lemma {:induction false} TaskMembers(tasks: seq<nat>, t: nat)
    ensures TaskRun(t) in TaskEvents(tasks) <==> t in tasks
  {
    if t in tasks {
      var i :| 0 <= i < |tasks| && tasks[i] == t;
      assert TaskEvents(tasks)[i] == TaskRun(t);
    }
  }

  lemma {:induction false} RoutesComeFirst(c: Config, ep: Endpoint)
    ensures |Routed(c, ep).state.instances| <= |Solved(c, ep).state.instances|
  {
    RoutesGround(c.world, ep.routes, EMPTY);
    PlanGrounds(c.world, Scan(ep.handler.signature).params, false, Routed(c, ep).state, NO_CALL);
  }

  lemma {:induction false} HandleMembers(ep: Endpoint, routed: nat, s: Step<HandlerCall>, k: Ref)
    requires routed <= |s.state.instances|
    ensures var trace := Handle(ep, routed, s).trace;
            && (RouteCalled(k) in trace <==> k < routed)
            && (ParamCalled(k) in trace <==> routed <= k < |s.state.instances|)
            && (HandlerInvoked in trace <==> s.result.Ok?)
            && (TornDown(k) in trace <==> s.result.Ok? && k in Reversed(s.state.exitStack))
  {
    var failure := if s.result.Err? then Some(s.result.error) else None;
    var solved, closed := SolveEvents(routed, |s.state.instances|, failure), Reversed(s.state.exitStack);
    SolveInOrder(routed, |s.state.instances|, failure);
    SolveEventsMembers(routed, |s.state.instances|, failure, k);
    TeardownMembers(closed, k);
    NotWithin(solved, 2, 4, HandlerInvoked);
    NotWithin(solved, 2, 4, TornDown(k));
    NotWithin(TeardownEvents(closed), 6, 6, RouteCalled(k));
    NotWithin(TeardownEvents(closed), 6, 6, ParamCalled(k));
    NotWithin(TeardownEvents(closed), 6, 6, HandlerInvoked);
  }

  lemma {:induction false} NotWithin(trace: seq<Event>, lo: nat, hi: nat, e: Event)
    requires Within(trace, lo, hi) && !(lo <= Stage(e) <= hi)
    ensures e !in trace
  {
  }

  lemma {:induction false} SurroundMiddle(ep: Endpoint, x: Executed, e: Event)
    requires 2 <= Stage(e) <= 6
    ensures e in Surround(ep, x).trace <==> e in x.trace
  {
    if x.outcome.Ok? {
      AfterwardsInOrder(x.outcome.value, x.tasks);
      NotWithin(Afterwards(x.outcome.value, x.tasks), 7, 10, e);
    }
  }

  lemma {:induction false} DispatchMiddle(c: Config, ep: Endpoint, direct: Executed, e: Event)
    requires TakesDirectPath(c, ep) && 2 <= Stage(e) <= 6
    ensures e in Dispatch(c, ep, direct).trace <==> !(c.scan.Some? && c.scan.value.Some?) && e in direct.trace
  {
  }

  /** The events between the checks and the session turn belong to the direct execution, and to nothing else. */
  lemma {:induction false} MiddleMembers(c: Config, ep: Endpoint, e: Event)
    requires TakesDirectPath(c, ep) && 2 <= Stage(e) <= 6
    ensures e in Process(c, ep).trace <==> Admitted(c, ep) && e in ExecuteDirectly(c, ep).trace
  {
    DispatchMiddle(c, ep, ExecuteDirectly(c, ep), e);
    SurroundMiddle(ep, ExecuteIntent(c, ep), e);
  }

  lemma {:induction false} DirectMembers(c: Config, ep: Endpoint, k: Ref)
    ensures var s, routed, trace := Solved(c, ep), |Routed(c, ep).state.instances|, ExecuteDirectly(c, ep).trace;
            && (RouteCalled(k) in trace <==> k < routed)
            && (ParamCalled(k) in trace <==> routed <= k < |s.state.instances|)
            && (HandlerInvoked in trace <==> s.result.Ok?)
            && (TornDown(k) in trace <==> s.result.Ok? && k in Reversed(s.state.exitStack))
  {
    RoutesComeFirst(c, ep);
    HandleMembers(ep, |Routed(c, ep).state.instances|, Solved(c, ep), k);
  }

  lemma {:induction false} DirectPathCalls(c: Config, ep: Endpoint, k: Ref)
    requires TakesDirectPath(c, ep)
    ensures var s, routed, trace := Solved(c, ep), |Routed(c, ep).state.instances|, Process(c, ep).trace;
            && (RouteCalled(k) in trace <==> Admitted(c, ep) && k < routed)
            && (ParamCalled(k) in trace <==> Admitted(c, ep) && routed <= k < |s.state.instances|)
  {
    DirectMembers(c, ep, k);
    MiddleMembers(c, ep, RouteCalled(k));
    MiddleMembers(c, ep, ParamCalled(k));
  }

  lemma {:induction false} DirectPathHandler(c: Config, ep: Endpoint)
    requires TakesDirectPath(c, ep)
    ensures HandlerInvoked in Process(c, ep).trace <==> Admitted(c, ep) && Solved(c, ep).result.Ok?
  {
    MiddleMembers(c, ep, HandlerInvoked);
    RoutesComeFirst(c, ep);
    HandleMembers(ep, |Routed(c, ep).state.instances|, Solved(c, ep), 0);
  }

  lemma {:induction false} DirectPathTeardowns(c: Config, ep: Endpoint, k: Ref)
    requires TakesDirectPath(c, ep)
    ensures TornDown(k) in Process(c, ep).trace <==>
              Admitted(c, ep) && Solved(c, ep).result.Ok? && k in Reversed(Solved(c, ep).state.exitStack)
  {
    DirectMembers(c, ep, k);
    MiddleMembers(c, ep, TornDown(k));
  }

  /**
   On the direct path, exactly: nothing is called unless the scope check and
   the text scan let the request through; the handler is invoked if and only
   if `solve` returned; and an object is torn down if and only if `solve`
   returned and a generator made it.
   */
  lemma {:induction false} DirectPathEvents(c: Config, ep: Endpoint, k: Ref)
    requires TakesDirectPath(c, ep)
    ensures var s, routed, trace := Solved(c, ep), |Routed(c, ep).state.instances|, Process(c, ep).trace;
            && (RouteCalled(k) in trace <==> Admitted(c, ep) && k < routed)
            && (ParamCalled(k) in trace <==> Admitted(c, ep) && routed <= k < |s.state.instances|)
            && (HandlerInvoked in trace <==> Admitted(c, ep) && s.result.Ok?)
            && (TornDown(k) in trace <==>
                  && Admitted(c, ep) && s.result.Ok?
                  && k < |s.state.instances| && c.world.isGenerator(s.state.instances[k].provider))
  {
    DirectPathCalls(c, ep, k);
    DirectPathHandler(c, ep);
    DirectPathTeardowns(c, ep, k);
    ClosedAreGenerators(c, ep, k);
  }

  /** Event e is in the trace once. */
  predicate Once(trace: seq<Event>, e: Event) {
    exists i :: 0 <= i < |trace| && trace[i] == e && e !in trace[..i] && e !in trace[i + 1..]
  }

  lemma {:induction false} InOrderOnce(trace: seq<Event>, e: Event)
    requires InOrder(trace) && e in trace && !e.TaskRun?
    ensures Once(trace, e)
  {
    var i :| 0 <= i < |trace| && trace[i] == e;
    assert forall j :: 0 <= j < |trace| && j != i ==> Before(trace[j], e) || Before(e, trace[j]);
  }

  lemma {:induction false} StagesSplit(trace: seq<Event>, h: nat, e: Event)
    requires InOrder(trace) && h < |trace| && e in trace
    ensures Stage(e) < Stage(trace[h]) ==> e in trace[..h]
    ensures Stage(e) > Stage(trace[h]) ==> e in trace[h + 1..] && e !in trace[..h]
  {
    var i :| 0 <= i < |trace| && trace[i] == e;
    if i < h {
      assert trace[..h][i] == e && Before(trace[i], trace[h]);
    } else if i > h {
      assert trace[h + 1..][i - h - 1] == e && Before(trace[h], trace[i]);
    }
    if e in trace[..h] {
      var j :| 0 <= j < h && trace[..h][j] == e;
      assert Before(trace[j], trace[h]);
    }
  }

  /** Made before position h, not closed before it, and closed once after it if closed at all. */
  predicate OpenAt(trace: seq<Event>, h: nat, k: Ref)
    requires h < |trace|
  {
    && (RouteCalled(k) in trace[..h] || ParamCalled(k) in trace[..h])
    && TornDown(k) !in trace[..h]
    && (TornDown(k) in trace ==> Once(trace, TornDown(k)) && TornDown(k) in trace[h + 1..])
  }

  lemma {:induction false} MadeIsOpen(trace: seq<Event>, h: nat, made: Event, k: Ref)
    requires InOrder(trace) && h < |trace| && trace[h] == HandlerInvoked && made in trace
    requires made == RouteCalled(k) || made == ParamCalled(k)
    ensures OpenAt(trace, h, k)
  {
    StagesSplit(trace, h, made);
    if TornDown(k) in trace {
      StagesSplit(trace, h, TornDown(k));
      InOrderOnce(trace, TornDown(k));
    }
  }

  /**
   When the handler is invoked, at position h of the trace, every object of
   the request has been made and none has been closed; and every generator
   object, but no other, is closed afterwards, once.
   */
  lemma {:induction false} AliveDuringHandler(c: Config, ep: Endpoint, h: nat, k: Ref)
    requires TakesDirectPath(c, ep)
    requires h < |Process(c, ep).trace| && Process(c, ep).trace[h] == HandlerInvoked
    requires k < |Solved(c, ep).state.instances|
    ensures OpenAt(Process(c, ep).trace, h, k)
    ensures TornDown(k) in Process(c, ep).trace <==> c.world.isGenerator(Solved(c, ep).state.instances[k].provider)
  {
    var trace := Process(c, ep).trace;
    assert HandlerInvoked in trace;
    EventsInOrder(c, ep);
    DirectPathEvents(c, ep, k);
    MadeIsOpen(trace, h, if RouteCalled(k) in trace then RouteCalled(k) else ParamCalled(k), k);
  }

  lemma {:induction false} ClosedAreGenerators(c: Config, ep: Endpoint, k: Ref)
    ensures var st := Solved(c, ep).state;
            k in Reversed(st.exitStack) <==> k < |st.instances| && c.world.isGenerator(st.instances[k].provider)
  {
    TeardownSafety(c.world, ep.routes, Scan(ep.handler.signature).params, false, k);
  }

  lemma {:induction false} AfterwardsMembers(response: Response, tasks: seq<nat>, task: nat)
    ensures var after := Afterwards(response, tasks);
            && TurnAdded(response.FileResponse?) in after && TurnAdded(!response.FileResponse?) !in after
            && SessionSaved in after
            && Recorded(if response.JsonResponse? then response.status else "completed") in after
            && (TaskRun(task) in after <==> task in tasks)
  {
    var after := Afterwards(response, tasks);
    assert after[0] == TurnAdded(response.FileResponse?) && after[1] == SessionSaved;
    TaskMembers(tasks, task);
  }

  lemma {:induction false} SurroundMembers(ep: Endpoint, x: Executed, task: nat)
    requires Within(x.trace, 1, 6)
    ensures var r := Surround(ep, x);
            && (r.outcome.Ok? <==> TurnAdded(true) in r.trace || TurnAdded(false) in r.trace)
            && (r.outcome.Ok? <==> SessionSaved in r.trace)
            && (r.outcome.Ok? <==> exists status :: Recorded(status) in r.trace)
            && (r.outcome == Ok(JsonResponse("error")) ==> TurnAdded(false) in r.trace && Recorded("error") in r.trace)
            && (TaskRun(task) in r.trace <==> r.outcome.Ok? && task in x.tasks)
  {
    var r := Surround(ep, x);
    if r.outcome.Ok? {
      AfterwardsMembers(r.outcome.value, x.tasks, task);
      assert Recorded(if r.outcome.value.JsonResponse? then r.outcome.value.status else "completed") in r.trace;
    }
  }

  /** What the handler path makes a response of: anything but a framework exception and a rejected result. */
  predicate Accepts(ep: Endpoint, replied: Result<Reply, Exception>) {
    match replied
    case Err(e) => !e.fromFramework
    case Ok(reply) => reply.RawResponse? || ep.validate(reply.result).None?
  }

  /** The request is admitted, and the workflow, the harness or the handler gives it a response. */
  predicate Answers(c: Config, ep: Endpoint) {
    && Admitted(c, ep)
    && if ep.workflow.Some? then ep.workflow.value.Ok?
       else if !TakesDirectPath(c, ep) then ep.harness.Ok?
       else
         var s := Solved(c, ep);
         s.result.Ok? && Accepts(ep, Invoke(ep.handler, s.result.value, s.state, ep.close).replied)
  }

  /** What the handler put on the AgentTasks object it received last; the other paths have no tasks. */
  function LastTasks(c: Config, ep: Endpoint): seq<nat> {
    var s := Solved(c, ep);
    if TakesDirectPath(c, ep) && s.result.Ok?
    then Invoke(ep.handler, s.result.value, s.state, ep.close).Pending(s.result.value.tasks)
    else []
  }

  lemma {:induction false} HandleAnswers(ep: Endpoint, routed: nat, s: Step<HandlerCall>)
    ensures var x := Handle(ep, routed, s);
            && (x.outcome.Ok? <==>
                  s.result.Ok? && Accepts(ep, Invoke(ep.handler, s.result.value, s.state, ep.close).replied))
            && x.tasks == if s.result.Ok?
                          then Invoke(ep.handler, s.result.value, s.state, ep.close).Pending(s.result.value.tasks)
                          else []
  {
  }

  lemma {:induction false} ProcessAnswers(c: Config, ep: Endpoint, direct: Executed)
    requires direct == ExecuteDirectly(c, ep)
    ensures Process(c, ep).outcome.Ok? <==>
              && Admitted(c, ep)
              && if ep.workflow.Some? then ep.workflow.value.Ok?
                 else if !TakesDirectPath(c, ep) then ep.harness.Ok?
                 else direct.outcome.Ok?
    ensures Process(c, ep).outcome.Ok? ==>
              ExecuteIntent(c, ep).tasks == if TakesDirectPath(c, ep) then direct.tasks else []
  {
    assert ExecuteIntent(c, ep) == Dispatch(c, ep, direct);
  }

  lemma {:induction false} AnswersIff(c: Config, ep: Endpoint)
    ensures Process(c, ep).outcome.Ok? <==> Answers(c, ep)
    ensures Answers(c, ep) ==> ExecuteIntent(c, ep).tasks == LastTasks(c, ep)
  {
    ProcessAnswers(c, ep, ExecuteDirectly(c, ep));
    HandleAnswers(ep, |Routed(c, ep).state.instances|, Solved(c, ep));
  }

  /**
   The session turn, the session update and the metric happen if and only if
   the request is answered; a background task runs if and only if it is, and
   the handler put it on the last AgentTasks object it received.
   */
  lemma {:induction false} AftermathEvents(c: Config, ep: Endpoint, task: nat)
    ensures var trace := Process(c, ep).trace;
            && (TurnAdded(true) in trace || TurnAdded(false) in trace <==> Answers(c, ep))
            && (SessionSaved in trace <==> Answers(c, ep))
            && ((exists status :: Recorded(status) in trace) <==> Answers(c, ep))
            && (TaskRun(task) in trace <==> Answers(c, ep) && task in LastTasks(c, ep))
  {
    AnswersIff(c, ep);
    DirectInOrder(c, ep);
    DispatchInOrder(c, ep, ExecuteDirectly(c, ep));
    SurroundMembers(ep, ExecuteIntent(c, ep), task);
  }

  /**
   An exception left after the handler and its teardowns: one of the
   framework's own ends the request with no turn and no tasks; any other
   becomes an error response, and the turn and the tasks still happen.
   */
  lemma {:induction false} HandlerFailure(c: Config, ep: Endpoint, e: Exception, k: Ref, task: nat)
    requires TakesDirectPath(c, ep) && Admitted(c, ep) && Solved(c, ep).result.Ok?
    requires Invoke(ep.handler, Solved(c, ep).result.value, Solved(c, ep).state, ep.close).replied == Err(e)
    ensures var r := Process(c, ep);
            && (k in Solved(c, ep).state.exitStack ==> TornDown(k) in r.trace)
            && (e.fromFramework ==>
                  r.outcome == Err(e) && SessionSaved !in r.trace && TaskRun(task) !in r.trace)
            && (!e.fromFramework ==>
                  && r.outcome == Ok(JsonResponse("error"))
                  && TurnAdded(false) in r.trace && SessionSaved in r.trace && Recorded("error") in r.trace
                  && (TaskRun(task) in r.trace <==> task in LastTasks(c, ep)))
  {
    DirectPathEvents(c, ep, k);
    SolveMatches(c.world, ep.routes, Scan(ep.handler.signature).params, false);
    DirectInOrder(c, ep);
    DispatchInOrder(c, ep, ExecuteDirectly(c, ep));
    SurroundMembers(ep, ExecuteIntent(c, ep), task);
  }

  /**
   A result the endpoint's response model rejects ends the request with that
   exception, of whatever kind: the teardowns have happened, the turn and the
   tasks do not.
   */
  lemma {:induction false} RejectedReply(c: Config, ep: Endpoint, reply: Reply, e: Exception, k: Ref, task: nat)
    requires TakesDirectPath(c, ep) && Admitted(c, ep) && Solved(c, ep).result.Ok?
    requires Invoke(ep.handler, Solved(c, ep).result.value, Solved(c, ep).state, ep.close).replied == Ok(reply)
    requires !reply.RawResponse? && ep.validate(reply.result) == Some(e)
    ensures var r := Process(c, ep);
            && r.outcome == Err(e)
            && (k in Solved(c, ep).state.exitStack ==> TornDown(k) in r.trace)
            && SessionSaved !in r.trace && TaskRun(task) !in r.trace
  {
    DirectPathEvents(c, ep, k);
    SolveMatches(c.world, ep.routes, Scan(ep.handler.signature).params, false);
    AftermathEvents(c, ep, task);
  }

  /**
   A handler whose prepared call cannot bind is never run: unless a teardown
   fails, the request ends with an error response, and with no tasks.
   */
  lemma {:induction false} UnbindableHandler(c: Config, ep: Endpoint, task: nat)
    requires TakesDirectPath(c, ep) && Admitted(c, ep) && Solved(c, ep).result.Ok?
    requires SignatureNamesDistinct(ep.handler.signature) && !Bindable(ep.handler.signature, false)
    requires !AnyFails(ep.close, Solved(c, ep).state.exitStack)
    ensures Process(c, ep).outcome == Ok(JsonResponse("error"))
    ensures TaskRun(task) !in Process(c, ep).trace
  {
    var s := Solved(c, ep);
    CallBinding(c.world, ep.routes, ep.handler.signature, false, 0);
    OldestFailureWins(ep.close, s.state.exitStack, None);
    assert Invoke(ep.handler, s.result.value, s.state, ep.close) == NOT_BOUND;
    HandlerFailure(c, ep, NOT_BOUND.replied.error, 0, task);
  }
}
