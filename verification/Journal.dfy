/** What happened in a request, written down by whoever did it, at the moment it was done. */
module Journal {
  import opened Wrappers
  import opened Scanner
  import opened Injection

  datatype Event =
    | ScopeChecked(allowed: bool)
    | TextScanned(allowed: bool)
    | WorkflowRun
    | HarnessRun
    | RouteCalled(ref: Ref)
    | ParamCalled(ref: Ref)
    | ProviderFailed(provider: Provider)
    | HandlerInvoked
    | TornDown(ref: Ref)
    | TurnAdded(fileResponse: bool)
    | SessionSaved
    | TaskRun(task: nat)
    | Recorded(status: string)

  /** One journal is shared by the application and the injector; nothing the program does depends on it. */
  class Journal {
    ghost var events: seq<Event>

    constructor ()
      ensures events == []
    {
      events := [];
    }
  }

  /** A completed provider call, for a route-level dependency or for a parameter. */
  function Called(forRoute: bool, k: Ref): Event {
    if forRoute then RouteCalled(k) else ParamCalled(k)
  }

  function CallEvents(forRoute: bool, from: nat, to: nat): (r: seq<Event>)
    requires from <= to
    ensures |r| == to - from && forall i :: 0 <= i < to - from ==> r[i] == Called(forRoute, from + i)
  {
    seq(to - from, i requires 0 <= i < to - from => Called(forRoute, from + i))
  }

  function FailureEvents(failure: Option<SolveError>): seq<Event> {
    if failure.Some? && failure.value.ProviderRaised? then [ProviderFailed(failure.value.provider)] else []
  }

  /** The journal grew by the calls numbered `from` to `to`, and the exception that ended them, if one did. */
  ghost predicate Grew(before: seq<Event>, after: seq<Event>, forRoute: bool, from: nat, to: nat,
                       failure: Option<SolveError>)
  {
    from <= to && after == before + CallEvents(forRoute, from, to) + FailureEvents(failure)
  }

  lemma {:induction false} NothingGrew(events: seq<Event>, forRoute: bool, n: nat)
    ensures Grew(events, events, forRoute, n, n, None)
  {
  }

  lemma {:induction false} GrewByCall(before: seq<Event>, mid: seq<Event>, forRoute: bool, from: nat, to: nat)
    requires Grew(before, mid, forRoute, from, to, None)
    ensures Grew(before, mid + [Called(forRoute, to)], forRoute, from, to + 1, None)
  {
    assert CallEvents(forRoute, from, to + 1) == CallEvents(forRoute, from, to) + [Called(forRoute, to)];
  }

  lemma {:induction false} GrewByFailure(before: seq<Event>, mid: seq<Event>, forRoute: bool, from: nat, to: nat,
                                         error: SolveError)
    requires Grew(before, mid, forRoute, from, to, None)
    ensures Grew(before, mid + FailureEvents(Some(error)), forRoute, from, to, Some(error))
  {
  }

  lemma {:induction false} GrewOn(before: seq<Event>, mid: seq<Event>, after: seq<Event>, forRoute: bool,
                                  from: nat, between: nat, to: nat, failure: Option<SolveError>)
    requires Grew(before, mid, forRoute, from, between, None)
    requires Grew(mid, after, forRoute, between, to, failure)
    ensures Grew(before, after, forRoute, from, to, failure)
  {
    assert CallEvents(forRoute, from, to) == CallEvents(forRoute, from, between) + CallEvents(forRoute, between, to);
  }

  /**
   The calls of a whole `solve`: the first `routed` were made for route-level
   dependencies, the others up to `called` for parameters.
   */
  function SolveEvents(routed: nat, called: nat, failure: Option<SolveError>): seq<Event> {
    CallEvents(true, 0, routed)
    + (if routed <= called then CallEvents(false, routed, called) else [])
    + FailureEvents(failure)
  }

  lemma {:induction false} SolveGrew(before: seq<Event>, mid: seq<Event>, after: seq<Event>, routed: nat, called: nat,
                                     failure: Option<SolveError>)
    requires Grew(before, mid, true, 0, routed, None) && Grew(mid, after, false, routed, called, failure)
    ensures after == before + SolveEvents(routed, called, failure)
  {
  }

  lemma {:induction false} RoutesGrew(before: seq<Event>, after: seq<Event>, routed: nat, failure: Option<SolveError>)
    requires Grew(before, after, true, 0, routed, failure)
    ensures after == before + SolveEvents(routed, routed, failure)
  {
  }

  function TeardownEvents(stack: seq<Ref>): (r: seq<Event>)
    ensures |r| == |stack| && forall i :: 0 <= i < |r| ==> r[i] == TornDown(stack[i])
  {
    seq(|stack|, i requires 0 <= i < |stack| => TornDown(stack[i]))
  }

  lemma {:induction false} OneMoreTeardown(events: seq<Event>, done: seq<Ref>, k: Ref)
    ensures events + TeardownEvents(done + [k]) == events + TeardownEvents(done) + [TornDown(k)]
  {
    assert TeardownEvents(done + [k]) == TeardownEvents(done) + [TornDown(k)];
  }

  function TaskEvents(tasks: seq<nat>): (r: seq<Event>)
    ensures |r| == |tasks| && forall i :: 0 <= i < |r| ==> r[i] == TaskRun(tasks[i])
  {
    seq(|tasks|, i requires 0 <= i < |tasks| => TaskRun(tasks[i]))
  }
}
