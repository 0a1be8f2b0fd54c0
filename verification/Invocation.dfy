/** Calling a handler with a solved call, and unwinding the exit stack afterwards. */
module Invocation {
  import opened Wrappers
  import opened Scanner
  import opened Injection

  /** What a handler may hand back: a ready HTTP response, an AgentResponse, or any other value. */
  datatype Reply =
    | RawResponse(body: Object)
    | AgentReply(status: string, result: Object)
    | PlainReply(result: Object)

  /** What became of a handler call: its reply or exception, and the tasks it put on each AgentTasks object. */
  datatype Ran = Ran(replied: Result<Reply, Exception>, added: map<nat, seq<nat>>)
  {
    /** The tasks waiting on an AgentTasks object, if there is one. */
    function Pending(tasks: Option<nat>): seq<nat> {
      if tasks.Some? && tasks.value in added then added[tasks.value] else []
    }
  }

  /** What a handler does may depend on its arguments, on the objects made so far, and on which of them are closed. */
  datatype Handler = Handler(
    signature: seq<Parameter>,
    run: (seq<Arg>, map<string, Arg>, seq<Instance>, seq<Ref>) -> Ran)

  // ----- Python's argument binding, for positional-or-keyword parameters

  predicate Binds(sig: seq<Parameter>, positional: seq<Arg>, kwargs: map<string, Arg>) {
    && |positional| <= |sig|
    && (forall i :: 0 <= i < |positional| ==> sig[i].name !in kwargs)
    && (forall i :: |positional| <= i < |sig| ==> sig[i].name in kwargs || !sig[i].default.NoDefault?)
    && (forall n :: n in kwargs ==> exists i :: 0 <= i < |sig| && sig[i].name == n)
  }

  /** What parameter i receives in a call that binds; None stands for its own default. */
  function BoundTo(sig: seq<Parameter>, positional: seq<Arg>, kwargs: map<string, Arg>, i: nat): Option<Arg>
    requires i < |sig|
  {
    if i < |positional| then Some(positional[i])
    else if sig[i].name in kwargs then Some(kwargs[sig[i].name])
    else None
  }

  /** A call that does not bind raises before the handler does anything. */
  const NOT_BOUND := Ran(Err(Exception(false, "TypeError")), map[])

  function CallHandler(h: Handler, call: HandlerCall, instances: seq<Instance>, closed: seq<Ref>): Ran {
    if Binds(h.signature, call.positional, call.kwargs) then h.run(call.positional, call.kwargs, instances, closed)
    else NOT_BOUND
  }

  // ----- The exit stack

  function Reversed<T>(s: seq<T>): (r: seq<T>)
    ensures |r| == |s|
    ensures forall i :: 0 <= i < |s| ==> r[i] == s[|s| - 1 - i]
  {
    if s == [] then [] else [s[|s| - 1]] + Reversed(s[..|s| - 1])
  }

  /**
   The exception left when the stack has been unwound from its top: a failing
   teardown does not stop the others, and the last one to fail is what is raised.
   */
  function Unwound(close: Ref -> Option<Exception>, stack: seq<Ref>, pending: Option<Exception>): Option<Exception> {
    if stack == [] then pending
    else
      var top := stack[|stack| - 1];
      Unwound(close, stack[..|stack| - 1], if close(top).Some? then close(top) else pending)
  }

  /** A failing teardown replaces whatever the handler replied; its tasks stay. */
  function Settle(ran: Ran, unwound: Option<Exception>): Ran {
    if unwound.Some? then ran.(replied := Err(unwound.value)) else ran
  }

  /** The handler runs while nothing has been closed; then the stack is unwound. */
  function Invoke(h: Handler, call: HandlerCall, st: State, close: Ref -> Option<Exception>): Ran {
    Settle(CallHandler(h, call, st.instances, []), Unwound(close, st.exitStack, None))
  }
}
