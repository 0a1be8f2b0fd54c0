/** The dynamic pipeline: gather the stages, bound them, sort them stably, fold their handlers. */
module Pipeline {
  import opened Wrappers

  datatype Value = Value(identity: nat)

  type Context = map<string, Value>

  /** A stage name, compared as a whole. */
  datatype Name = Name(text: string)

  /** A handler by identity; None is a stage without one. */
  datatype Stage = Stage(name: Name, handler: Option<nat>, required: bool, order: int)

  /**
   A handler may change the dictionary it is given (`after` is what it left
   there) and may return another; it may also raise.
   */
  datatype Handled = Handled(after: Context, returned: Option<Context>) | Failed(error: Exception)

  /** What a handler does may depend on how many handlers the run has called before. */
  type Handlers = (nat, nat, Context) -> Handled

  datatype PipelineResult = PipelineResult(context: Context, stagesExecuted: seq<Name>, timed: set<Name>)

  datatype Failure = TooManyStages(count: nat) | HandlerRaised(error: Exception)

  // ----- Gathering

  /** `{s.name: s for s in stages}`: the last stage of a name wins. */
  function ByName(stages: seq<Stage>): map<Name, Stage> {
    if stages == [] then map[] else ByName(stages[..|stages| - 1])[stages[|stages| - 1].name := stages[|stages| - 1]]
  }

  /** The known stages among the selected names, in the order and as often as selected. */
  function Chosen(available: map<Name, Stage>, selected: seq<Name>): seq<Stage> {
    if selected == [] then []
    else
      Chosen(available, selected[..|selected| - 1])
      + if selected[|selected| - 1] in available then [available[selected[|selected| - 1]]] else []
  }

  predicate LastOfName(stages: seq<Stage>, i: nat, name: Name) {
    i < |stages| && stages[i].name == name && forall j :: i < j < |stages| ==> stages[j].name != name
  }

  /** A name is available if and only if a stage has it, and then as the last of those that do. */
  lemma {:induction false} LastStageWins(stages: seq<Stage>, i: nat, name: Name)
    ensures name in ByName(stages) <==> exists j :: 0 <= j < |stages| && stages[j].name == name
    ensures LastOfName(stages, i, name) ==> name in ByName(stages) && ByName(stages)[name] == stages[i]
    decreases |stages|
  {
    if stages != [] {
      var init := stages[..|stages| - 1];
      LastStageWins(init, i, name);
      if j :| 0 <= j < |stages| && stages[j].name == name {
        assert j < |init| ==> init[j].name == name;
      }
      if j :| 0 <= j < |init| && init[j].name == name {
        assert stages[j].name == name;
      }
    }
  }

  /** What is chosen: nothing for no names, for one name its stage if there is one, and for more names each in turn. */
  lemma {:induction false} ChosenInTurn(available: map<Name, Stage>, name: Name, a: seq<Name>, b: seq<Name>)
    ensures Chosen(available, []) == []
    ensures Chosen(available, [name]) == if name in available then [available[name]] else []
    ensures Chosen(available, a + b) == Chosen(available, a) + Chosen(available, b)
  {
    ChosenConcat(available, a, b);
  }

  // ----- Stable sorting by order

  /** Puts a stage after every stage of the same or a lower order. */
  function Insert(sorted: seq<Stage>, s: Stage): seq<Stage> {
    if sorted == [] then [s]
    else if sorted[|sorted| - 1].order <= s.order then sorted + [s]
    else Insert(sorted[..|sorted| - 1], s) + [sorted[|sorted| - 1]]
  }

  function StableSort(stages: seq<Stage>): seq<Stage> {
    if stages == [] then [] else Insert(StableSort(stages[..|stages| - 1]), stages[|stages| - 1])
  }

  predicate Sorted(stages: seq<Stage>) {
    forall i, j :: 0 <= i < j < |stages| ==> stages[i].order <= stages[j].order
  }

  /** The stages of one order, as they follow each other. */
  function OfOrder(stages: seq<Stage>, order: int): seq<Stage> {
    if stages == [] then []
    else if stages[0].order == order then [stages[0]] + OfOrder(stages[1..], order)
    else OfOrder(stages[1..], order)
  }

  ghost predicate SameTies(a: seq<Stage>, b: seq<Stage>) {
    forall order :: OfOrder(a, order) == OfOrder(b, order)
  }

  lemma {:induction false} OfOrderConcat(a: seq<Stage>, b: seq<Stage>, order: int)
    ensures OfOrder(a + b, order) == OfOrder(a, order) + OfOrder(b, order)
    decreases |a|
  {
    if a == [] {
      assert a + b == b;
    } else {
      assert (a + b)[1..] == a[1..] + b;
      OfOrderConcat(a[1..], b, order);
    }
  }

  lemma {:induction false} OfOrderAbsent(stages: seq<Stage>, order: int)
    requires forall i :: 0 <= i < |stages| ==> stages[i].order != order
    ensures OfOrder(stages, order) == []
    decreases |stages|
  {
    if stages != [] {
      OfOrderAbsent(stages[1..], order);
    }
  }

  lemma {:induction false} OfOrderPresent(stages: seq<Stage>, i: nat)
    requires i < |stages|
    ensures OfOrder(stages, stages[i].order) != []
    decreases i
  {
    if i > 0 {
      OfOrderPresent(stages[1..], i - 1);
    }
  }

  lemma {:induction false} InsertCounts(sorted: seq<Stage>, s: Stage)
    ensures multiset(Insert(sorted, s)) == multiset(sorted) + multiset{s}
    decreases |sorted|
  {
    if sorted != [] && sorted[|sorted| - 1].order > s.order {
      InsertCounts(sorted[..|sorted| - 1], s);
      assert sorted == sorted[..|sorted| - 1] + [sorted[|sorted| - 1]];
    }
  }

  lemma {:induction false} InsertSorts(sorted: seq<Stage>, s: Stage)
    requires Sorted(sorted)
    ensures Sorted(Insert(sorted, s))
    decreases |sorted|
  {
    if sorted != [] && sorted[|sorted| - 1].order > s.order {
      var init, last := sorted[..|sorted| - 1], sorted[|sorted| - 1];
      InsertSorts(init, s);
      InsertCounts(init, s);
      var r := Insert(init, s);
      forall i | 0 <= i < |r| ensures r[i].order <= last.order {
        assert r[i] in multiset(r);
      }
    }
  }

  lemma {:induction false} OneOfOrder(s: Stage, order: int)
    ensures OfOrder([s], order) == if s.order == order then [s] else []
  {
  }

  lemma {:induction false} InsertKeepsTies(sorted: seq<Stage>, s: Stage, order: int)
    requires Sorted(sorted)
    ensures OfOrder(Insert(sorted, s), order) == OfOrder(sorted, order) + OfOrder([s], order)
    decreases |sorted|
  {
    if sorted == [] {
    } else if sorted[|sorted| - 1].order <= s.order {
      OfOrderConcat(sorted, [s], order);
    } else {
      var init, last := sorted[..|sorted| - 1], sorted[|sorted| - 1];
      assert sorted == init + [last];
      InsertKeepsTies(init, s, order);
      OfOrderConcat(Insert(init, s), [last], order);
      OfOrderConcat(init, [last], order);
      OneOfOrder(s, order);
      OneOfOrder(last, order);
    }
  }

  lemma {:induction false} SortIsSorted(stages: seq<Stage>)
    ensures Sorted(StableSort(stages))
    decreases |stages|
  {
    if stages != [] {
      SortIsSorted(stages[..|stages| - 1]);
      InsertSorts(StableSort(stages[..|stages| - 1]), stages[|stages| - 1]);
    }
  }

  lemma {:induction false} SortPermutes(stages: seq<Stage>)
    ensures multiset(StableSort(stages)) == multiset(stages)
    decreases |stages|
  {
    if stages != [] {
      var init, last := stages[..|stages| - 1], stages[|stages| - 1];
      SortPermutes(init);
      InsertCounts(StableSort(init), last);
      assert stages == init + [last];
    }
  }

  lemma {:induction false} SortKeepsTies(stages: seq<Stage>, order: int)
    ensures OfOrder(StableSort(stages), order) == OfOrder(stages, order)
    decreases |stages|
  {
    if stages != [] {
      var init, last := stages[..|stages| - 1], stages[|stages| - 1];
      SortKeepsTies(init, order);
      SortIsSorted(init);
      InsertKeepsTies(StableSort(init), last, order);
      OfOrderConcat(init, [last], order);
      assert stages == init + [last];
    }
  }

  /** The sort is a sorted permutation that keeps stages of the same order in their old sequence. */
  lemma {:induction false} StableSortSorts(stages: seq<Stage>)
    ensures Sorted(StableSort(stages))
    ensures multiset(StableSort(stages)) == multiset(stages)
    ensures SameTies(StableSort(stages), stages)
  {
    SortIsSorted(stages);
    SortPermutes(stages);
    forall order ensures OfOrder(StableSort(stages), order) == OfOrder(stages, order) {
      SortKeepsTies(stages, order);
    }
  }

  lemma {:induction false} TiesOfTail(stages: seq<Stage>, order: int)
    requires stages != []
    ensures OfOrder(stages[1..], order) ==
            if stages[0].order == order then OfOrder(stages, order)[1..] else OfOrder(stages, order)
  {
  }

  /** There is only one sorted arrangement with given ties. */
  lemma {:induction false} StableSortUnique(a: seq<Stage>, b: seq<Stage>)
    requires Sorted(a) && Sorted(b) && SameTies(a, b)
    ensures a == b
    decreases |a|
  {
    if a != [] {
      OfOrderPresent(a, 0);
      assert OfOrder(a, a[0].order) == OfOrder(b, a[0].order);
      SomeOfOrder(b, a[0].order);
      OfOrderPresent(b, 0);
      assert OfOrder(a, b[0].order) == OfOrder(b, b[0].order);
      SomeOfOrder(a, b[0].order);
      assert a[0].order == b[0].order;
      assert OfOrder(a, a[0].order)[0] == a[0] && OfOrder(b, a[0].order)[0] == b[0];
      forall order ensures OfOrder(a[1..], order) == OfOrder(b[1..], order) {
        assert OfOrder(a, order) == OfOrder(b, order);
        TiesOfTail(a, order);
        TiesOfTail(b, order);
      }
      StableSortUnique(a[1..], b[1..]);
    }
  }

  lemma {:induction false} SomeOfOrder(stages: seq<Stage>, order: int)
    requires OfOrder(stages, order) != []
    ensures exists i :: 0 <= i < |stages| && stages[i].order == order
    decreases |stages|
  {
    if stages[0].order != order {
      SomeOfOrder(stages[1..], order);
      var i :| 0 <= i < |stages[1..]| && stages[1..][i].order == order;
      assert stages[i + 1].order == order;
    }
  }

  /** Two gatherings run in the same sequence if and only if they agree on every group of equal orders. */
  lemma {:induction false} SameScheduleIffSameTies(a: seq<Stage>, b: seq<Stage>)
    ensures StableSort(a) == StableSort(b) <==> SameTies(a, b)
  {
    StableSortSorts(a);
    StableSortSorts(b);
    if SameTies(a, b) {
      forall order ensures OfOrder(StableSort(a), order) == OfOrder(StableSort(b), order) {
        assert OfOrder(StableSort(a), order) == OfOrder(a, order) == OfOrder(b, order);
      }
      StableSortUnique(StableSort(a), StableSort(b));
    }
    if StableSort(a) == StableSort(b) {
      forall order ensures OfOrder(a, order) == OfOrder(b, order) {
        assert OfOrder(StableSort(a), order) == OfOrder(a, order);
      }
    }
  }

  // ----- Running

  /** What one stage does to the result so far. */
  function RunStage(run: Handlers, s: Stage, r: PipelineResult): Result<PipelineResult, Failure> {
    if s.handler.None? then Ok(r)
    else
      match run(|r.stagesExecuted|, s.handler.value, r.context)
      case Failed(e) => Err(HandlerRaised(e))
      case Handled(after, returned) =>
        Ok(PipelineResult(if returned.Some? then returned.value else after,
                          r.stagesExecuted + [s.name], r.timed + {s.name}))
  }

  function RunStages(run: Handlers, stages: seq<Stage>, r: PipelineResult): Result<PipelineResult, Failure> {
    if stages == [] then Ok(r)
    else
      match RunStage(run, stages[0], r)
      case Err(e) => Err(e)
      case Ok(r') => RunStages(run, stages[1..], r')
  }

  datatype Config = Config(base: seq<Stage>, available: map<Name, Stage>, maxStages: int)

  function Execute(c: Config, run: Handlers, context: Context, selected: seq<Name>): Result<PipelineResult, Failure> {
    var stages := c.base + Chosen(c.available, selected);
    if |stages| > c.maxStages then Err(TooManyStages(|stages|))
    else RunStages(run, StableSort(stages), PipelineResult(context, [], {}))
  }

  class DynamicPipeline {
    var baseStages: seq<Stage>
    var availableStages: map<Name, Stage>
    var maxStages: int

    function Configuration(): Config
      reads this
    {
      Config(baseStages, availableStages, maxStages)
    }

    constructor (base: seq<Stage>, available: seq<Stage>, limit: int)
      ensures Configuration() == Config(base, ByName(available), limit)
    {
      baseStages, maxStages := base, limit;
      var byName: map<Name, Stage> := map[];
      for i := 0 to |available|
        invariant byName == ByName(available[..i])
      {
        assert available[..i + 1][..i] == available[..i];
        byName := byName[available[i].name := available[i]];
      }
      assert available[..|available|] == available;
      availableStages := byName;
    }

    method ExecutePipeline(run: Handlers, context: Context,
                           selected: seq<Name>) returns (r: Result<PipelineResult, Failure>)
      ensures r == Execute(Configuration(), run, context, selected)
    {
      var stages := baseStages;
      for i := 0 to |selected|
        invariant stages == baseStages + Chosen(availableStages, selected[..i])
      {
        assert selected[..i + 1][..i] == selected[..i];
        if selected[i] in availableStages {
          stages := stages + [availableStages[selected[i]]];
        }
      }
      assert selected[..|selected|] == selected;
      if |stages| > maxStages {
        return Err(TooManyStages(|stages|));
      }
      stages := StableSort(stages);
      var result := PipelineResult(context, [], {});
      ghost var start := result;
      for i := 0 to |stages|
        invariant RunStages(run, stages, start) == RunStages(run, stages[i..], result)
      {
        assert stages[i..][0] == stages[i] && stages[i..][1..] == stages[i + 1..];
        if stages[i].handler.Some? {
          var handled := run(|result.stagesExecuted|, stages[i].handler.value, result.context);
          match handled {
            case Failed(e) => return Err(HandlerRaised(e));
            case Handled(after, returned) =>
              var next := after;
              if returned.Some? {
                next := returned.value;
              }
              result := PipelineResult(next, result.stagesExecuted + [stages[i].name], result.timed + {stages[i].name});
          }
        }
      }
      return Ok(result);
    }
  }

  // ----- What an execution promises

  function WithHandlers(stages: seq<Stage>): seq<Name> {
    if stages == [] then []
    else (if stages[0].handler.Some? then [stages[0].name] else []) + WithHandlers(stages[1..])
  }

  lemma {:induction false} RunStagesExecutes(run: Handlers, stages: seq<Stage>, r: PipelineResult)
    requires forall n :: n in r.timed <==> n in r.stagesExecuted
    ensures var done := RunStages(run, stages, r);
            done.Ok? ==>
              && done.value.stagesExecuted == r.stagesExecuted + WithHandlers(stages)
              && forall n :: n in done.value.timed <==> n in done.value.stagesExecuted
    decreases |stages|
  {
    if stages != [] {
      var next := RunStage(run, stages[0], r);
      if next.Ok? {
        RunStagesExecutes(run, stages[1..], next.value);
      }
    }
  }

  lemma {:induction false} HandledIsNamed(stages: seq<Stage>, i: nat)
    requires i < |stages| && stages[i].handler.Some?
    ensures stages[i].name in WithHandlers(stages)
    decreases i
  {
    if i > 0 {
      HandledIsNamed(stages[1..], i - 1);
    }
  }

  /**
   A finished execution ran exactly the stages that have handlers, in the
   stable order by `order` of the base stages followed by the known selected
   ones; so every base stage with a handler ran, and the timings cover the
   stages that ran.  Too many stages run none: the outcome then does not depend on the handlers.
   */
  lemma {:induction false} ExecutionSchedule(c: Config, run: Handlers, context: Context, selected: seq<Name>, i: nat)
    ensures var stages, r := c.base + Chosen(c.available, selected), Execute(c, run, context, selected);
            && (r.Ok? ==>
                  && r.value.stagesExecuted == WithHandlers(StableSort(stages))
                  && (i < |c.base| && c.base[i].handler.Some? ==> c.base[i].name in r.value.stagesExecuted)
                  && forall n :: n in r.value.timed <==> n in r.value.stagesExecuted)
            && (r == Err(TooManyStages(|stages|)) <==> |stages| > c.maxStages)
  {
    var stages := c.base + Chosen(c.available, selected);
    var sorted := StableSort(stages);
    StableSortSorts(stages);
    RunStagesExecutes(run, sorted, PipelineResult(context, [], {}));
    NeverTooMany(run, sorted, PipelineResult(context, [], {}));
    if i < |c.base| && c.base[i].handler.Some? {
      assert stages[i] in multiset(sorted);
      var j :| 0 <= j < |sorted| && sorted[j] == stages[i];
      HandledIsNamed(sorted, j);
    }
  }

  lemma {:induction false} NeverTooMany(run: Handlers, stages: seq<Stage>, r: PipelineResult)
    ensures RunStages(run, stages, r).Err? ==> RunStages(run, stages, r).error.HandlerRaised?
    decreases |stages|
  {
    if stages != [] {
      var next := RunStage(run, stages[0], r);
      if next.Ok? {
        NeverTooMany(run, stages[1..], next.value);
      }
    }
  }

  /**
   One step of the contexts, after n handler calls: what the handler returned,
   or else what it left in the context it was given.
   */
  ghost predicate Steps(run: Handlers, s: Stage, n: nat, before: Context, after: Context) {
    if s.handler.None? then after == before
    else
      var handled := run(n, s.handler.value, before);
      handled.Handled? && after == if handled.returned.Some? then handled.returned.value else handled.after
  }

  /** A finished run threads one context through its stages, each handler seeing what the one before it left. */
  lemma {:induction false} ContextsThread(run: Handlers, stages: seq<Stage>, r: PipelineResult)
    returns (contexts: seq<Context>)
    requires RunStages(run, stages, r).Ok?
    ensures |contexts| == |stages| + 1 && contexts[0] == r.context
    ensures contexts[|stages|] == RunStages(run, stages, r).value.context
    ensures forall i :: 0 <= i < |stages| ==>
              Steps(run, stages[i], |r.stagesExecuted| + |WithHandlers(stages[..i])|, contexts[i], contexts[i + 1])
    decreases |stages|
  {
    if stages == [] {
      contexts := [r.context];
    } else {
      var next := RunStage(run, stages[0], r).value;
      var rest := ContextsThread(run, stages[1..], next);
      contexts := [r.context] + rest;
      forall i | 0 <= i < |stages|
        ensures Steps(run, stages[i], |r.stagesExecuted| + |WithHandlers(stages[..i])|, contexts[i], contexts[i + 1])
      {
        if i > 0 {
          assert stages[..i][1..] == stages[1..][..i - 1];
          assert Steps(run, stages[1..][i - 1], |next.stagesExecuted| + |WithHandlers(stages[1..][..i - 1])|,
                       rest[i - 1], rest[i]);
        }
      }
    }
  }

  /** A run that fails does so with the exception of the first handler that raises. */
  lemma {:induction false} RunStops(run: Handlers, stages: seq<Stage>, r: PipelineResult)
    returns (i: nat, done: PipelineResult)
    requires RunStages(run, stages, r).Err?
    ensures i < |stages| && RunStages(run, stages[..i], r) == Ok(done) && stages[i].handler.Some?
    ensures var handled := run(|done.stagesExecuted|, stages[i].handler.value, done.context);
            handled.Failed? && RunStages(run, stages, r) == Err(HandlerRaised(handled.error))
    decreases |stages|
  {
    var next := RunStage(run, stages[0], r);
    if next.Err? {
      i, done := 0, r;
    } else {
      i, done := RunStops(run, stages[1..], next.value);
      assert stages[..i + 1][0] == stages[0] && stages[..i + 1][1..] == stages[1..][..i];
      i := i + 1;
    }
  }

  /**
   A finished execution starts from the context it is given and ends with what
   threading it through the sorted stages leaves.
   */
  lemma {:induction false} ExecutionThreads(c: Config, run: Handlers, context: Context, selected: seq<Name>)
    returns (contexts: seq<Context>)
    requires Execute(c, run, context, selected).Ok?
    ensures var sorted := StableSort(c.base + Chosen(c.available, selected));
            && |contexts| == |sorted| + 1 && contexts[0] == context
            && contexts[|sorted|] == Execute(c, run, context, selected).value.context
            && forall i :: 0 <= i < |sorted| ==>
                 Steps(run, sorted[i], |WithHandlers(sorted[..i])|, contexts[i], contexts[i + 1])
  {
    var sorted := StableSort(c.base + Chosen(c.available, selected));
    contexts := ContextsThread(run, sorted, PipelineResult(context, [], {}));
  }

  // ----- Independence of the selection's order

  predicate DistinctOrders(stages: seq<Stage>) {
    forall i, j :: 0 <= i < j < |stages| ==> stages[i].order != stages[j].order
  }

  lemma {:induction false} DistinctTies(stages: seq<Stage>, order: int)
    requires DistinctOrders(stages)
    ensures |OfOrder(stages, order)| <= 1
    decreases |stages|
  {
    if stages != [] {
      DistinctTies(stages[1..], order);
      if stages[0].order == order {
        OfOrderAbsent(stages[1..], order);
      }
    }
  }

  lemma {:induction false} OfOrderCounts(stages: seq<Stage>, order: int, s: Stage)
    ensures multiset(OfOrder(stages, order))[s] == if s.order == order then multiset(stages)[s] else 0
    decreases |stages|
  {
    if stages != [] {
      OfOrderCounts(stages[1..], order, s);
      assert stages == [stages[0]] + stages[1..];
    }
  }

  lemma {:induction false} PermutedTies(a: seq<Stage>, b: seq<Stage>)
    requires DistinctOrders(a) && multiset(a) == multiset(b)
    ensures SameTies(a, b)
  {
    forall order ensures OfOrder(a, order) == OfOrder(b, order) {
      var x, y := OfOrder(a, order), OfOrder(b, order);
      forall s ensures multiset(x)[s] == multiset(y)[s] {
        OfOrderCounts(a, order, s);
        OfOrderCounts(b, order, s);
      }
      assert multiset(x) == multiset(y);
      assert |x| == |multiset(x)| == |y|;
      DistinctTies(a, order);
      if |x| == 1 {
        assert x[0] in multiset(y);
      }
    }
  }

  lemma {:induction false} TakeOut(names: seq<Name>, name: Name) returns (front: seq<Name>, back: seq<Name>)
    requires name in names
    ensures names == front + [name] + back
    ensures multiset(front + back) == multiset(names) - multiset{name}
  {
    var i :| 0 <= i < |names| && names[i] == name;
    front, back := names[..i], names[i + 1..];
    assert names == front + [name] + back;
  }

  lemma {:induction false} ChosenAround(available: map<Name, Stage>, front: seq<Name>, name: Name, back: seq<Name>)
    ensures multiset(Chosen(available, front + [name] + back))
         == multiset(Chosen(available, front + back)) + multiset(Chosen(available, [name]))
  {
    ChosenConcat(available, front, back);
    ChosenConcat(available, front + [name], back);
    ChosenConcat(available, front, [name]);
  }

  lemma {:induction false} ChosenConcat(available: map<Name, Stage>, a: seq<Name>, b: seq<Name>)
    ensures Chosen(available, a + b) == Chosen(available, a) + Chosen(available, b)
    decreases |b|
  {
    if b == [] {
      assert a + b == a;
    } else {
      assert (a + b)[..|a + b| - 1] == a + b[..|b| - 1];
      ChosenConcat(available, a, b[..|b| - 1]);
    }
  }

  lemma {:induction false} ChosenPutBack(available: map<Name, Stage>, init: seq<Name>, name: Name,
                                         front: seq<Name>, back: seq<Name>)
    requires multiset(Chosen(available, init)) == multiset(Chosen(available, front + back))
    ensures multiset(Chosen(available, init + [name])) == multiset(Chosen(available, front + [name] + back))
  {
    ChosenAround(available, front, name, back);
    ChosenConcat(available, init, [name]);
  }

  lemma {:induction false} TakeOutLast(names: seq<Name>) returns (init: seq<Name>, last: Name)
    requires names != []
    ensures names == init + [last]
    ensures multiset(init) == multiset(names) - multiset{last}
  {
    init, last := names[..|names| - 1], names[|names| - 1];
    assert names == init + [last];
  }

  lemma {:induction false} ChosenCounts(available: map<Name, Stage>, selected: seq<Name>, permuted: seq<Name>)
    requires multiset(selected) == multiset(permuted)
    ensures multiset(Chosen(available, selected)) == multiset(Chosen(available, permuted))
    decreases |selected|
  {
    if selected == [] {
      assert |multiset(selected)| == 0 && |multiset(permuted)| == |permuted|;
    } else {
      var init, last := TakeOutLast(selected);
      assert last in multiset(selected);
      var front, back := TakeOut(permuted, last);
      ChosenCounts(available, init, front + back);
      ChosenPutBack(available, init, last, front, back);
    }
  }

  /** If the stages to run have pairwise distinct orders, the order in which they were selected does not matter. */
  lemma {:induction false} SelectionOrderIrrelevant(c: Config, run: Handlers, context: Context, selected: seq<Name>,
                                                    permuted: seq<Name>)
    requires multiset(selected) == multiset(permuted)
    requires DistinctOrders(c.base + Chosen(c.available, selected))
    ensures Execute(c, run, context, permuted) == Execute(c, run, context, selected)
  {
    var a, b := c.base + Chosen(c.available, selected), c.base + Chosen(c.available, permuted);
    ChosenCounts(c.available, selected, permuted);
    assert multiset(a) == multiset(b);
    assert |multiset(a)| == |a| && |multiset(b)| == |b|;
    PermutedTies(a, b);
    SameScheduleIffSameTies(a, b);
  }

  // ----- Splitting a run at an order

  function UpTo(stages: seq<Stage>, k: int): seq<Stage> {
    if stages == [] then []
    else if stages[0].order <= k then [stages[0]] + UpTo(stages[1..], k)
    else UpTo(stages[1..], k)
  }

  function Above(stages: seq<Stage>, k: int): seq<Stage> {
    if stages == [] then []
    else if stages[0].order > k then [stages[0]] + Above(stages[1..], k)
    else Above(stages[1..], k)
  }

  lemma {:induction false} SplitTies(stages: seq<Stage>, k: int, order: int)
    ensures OfOrder(UpTo(stages, k), order) == if order <= k then OfOrder(stages, order) else []
    ensures OfOrder(Above(stages, k), order) == if order > k then OfOrder(stages, order) else []
    ensures forall i :: 0 <= i < |UpTo(stages, k)| ==> UpTo(stages, k)[i].order <= k
    ensures forall i :: 0 <= i < |Above(stages, k)| ==> Above(stages, k)[i].order > k
    decreases |stages|
  {
    if stages != [] {
      SplitTies(stages[1..], k, order);
    }
  }

  lemma {:induction false} SortedConcat(a: seq<Stage>, b: seq<Stage>, low: seq<Stage>, high: seq<Stage>, k: int)
    requires Sorted(a) && Sorted(b) && multiset(a) == multiset(low) && multiset(b) == multiset(high)
    requires forall i :: 0 <= i < |low| ==> low[i].order <= k
    requires forall i :: 0 <= i < |high| ==> high[i].order > k
    ensures Sorted(a + b)
  {
    forall i | 0 <= i < |a| ensures a[i].order <= k {
      assert a[i] in multiset(low);
    }
    forall i | 0 <= i < |b| ensures b[i].order > k {
      assert b[i] in multiset(high);
    }
  }

  lemma {:induction false} SortSplits(stages: seq<Stage>, k: int)
    ensures StableSort(stages) == StableSort(UpTo(stages, k)) + StableSort(Above(stages, k))
  {
    var low, high := UpTo(stages, k), Above(stages, k);
    var a, b := StableSort(low), StableSort(high);
    StableSortSorts(stages);
    StableSortSorts(low);
    StableSortSorts(high);
    SplitTies(stages, k, 0);
    SortedConcat(a, b, low, high, k);
    forall order ensures OfOrder(StableSort(stages), order) == OfOrder(a + b, order) {
      SplitTies(stages, k, order);
      OfOrderConcat(a, b, order);
      assert OfOrder(StableSort(stages), order) == OfOrder(stages, order);
      assert OfOrder(a, order) == OfOrder(low, order) && OfOrder(b, order) == OfOrder(high, order);
    }
    StableSortUnique(StableSort(stages), a + b);
  }

  lemma {:induction false} RunStagesConcat(run: Handlers, a: seq<Stage>, b: seq<Stage>, r: PipelineResult)
    ensures RunStages(run, a + b, r) ==
            match RunStages(run, a, r)
            case Err(e) => Err(e)
            case Ok(r') => RunStages(run, b, r')
    decreases |a|
  {
    if a == [] {
      assert a + b == b;
    } else {
      assert (a + b)[1..] == a[1..] + b;
      var next := RunStage(run, a[0], r);
      if next.Ok? {
        RunStagesConcat(run, a[1..], b, next.value);
      }
    }
  }

  /** Running the stages up to an order, then the rest on what they left, is one full run. */
  lemma {:induction false} RunSplits(run: Handlers, stages: seq<Stage>, k: int, r: PipelineResult)
    ensures RunStages(run, StableSort(stages), r) ==
            match RunStages(run, StableSort(UpTo(stages, k)), r)
            case Err(e) => Err(e)
            case Ok(r') => RunStages(run, StableSort(Above(stages, k)), r')
  {
    SortSplits(stages, k);
    RunStagesConcat(run, StableSort(UpTo(stages, k)), StableSort(Above(stages, k)), r);
  }
}
