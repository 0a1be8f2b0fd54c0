# AgenticAPI: a verified model

AgenticAPI serves natural-language requests through handlers whose parameters
are injected per request. This project models the parts of it whose
correctness spans several functions, and proves what their documentation and
tests promise:

- **Dependency injection** (`Scanner`, `Annotations`, `Injection`, `Injector`, `Invocation`). A handler's
  signature is scanned into a plan; the solver resolves the plan's `Depends`
  parameters recursively, with overrides, a per-request cache, per-reference
  `use_cache` flags, a depth limit of 32 in place of cycle detection, and a
  stack of generator teardowns. The class `Injector` runs this in place; every
  method is proved equal to a function of the state before it, and the theorems
  are about those functions: `Topology` (order, acyclicity, depth),
  `DepthLimit` and `DepthOrder` (exactly when the limit is met), `Schedule`
  (every run makes the calls of a dry run over the graph, in order, until one
  raises), `Failure` (where that is, as a walk in the graph), `Transparency`
  (the cache cannot be observed), `Sharing`, `Work`, `Overrides`, `Teardown`,
  `Binding` (does the prepared call bind?).
- **The request lifecycle** (`Journal`, `Lifecycle`, `LifecycleOrder`, `Requests`, `Leaks`):
  checks, solver, handler, teardowns, session turn and background tasks. Every
  event is written to one journal by the statement that does it, and a
  handler's outcome may depend on what has been closed when it runs.
- **The approved-code cache** (`CodeCache`, `CacheOrder`, `CodePath`): the in-memory cache
  and the lookup/generate/execute/store protocol around it.
- **The dynamic pipeline** (`Pipeline`): gather, bound, stable sort, fold.
- **Semantic versions** (`SemVer`, `Precedence`, `Text`): parse, print, bump.
- **Replay diffs** (`Diff`) and the **sliding-window rate limit** (`RateLimiter`).

Provider calls, handlers, teardown code and the code generator are arbitrary:
a call's outcome may depend on how many calls came before it, and anything may
raise. A Python object returned by a provider is named by the number of the
call that returned it. Every lemma switches Dafny's automatic induction off, so
each proof is the one its body shows.

## Where the code differs from what is said about it

- `README.md:214` documents `search(intent: Intent[OrderSearch], context)`. The
  call prepared for that handler never binds, because the unannotated second
  parameter makes the intent positional as well (`Binding.ReadmeSearchDoesNotBind`).
  The exact condition is `Binding.CallBinding`.
- `src/agenticapi/dependencies/scanner.py:84-86` says that `legacy_positional_count` is how many parameters
  receive intent and context positionally. The solver never reads it and fills
  every legacy parameter (`src/agenticapi/dependencies/solver.py:239-241`); `Scanner.LegacyCountMeaning`
  says exactly when the two numbers agree, and `Scanner.AnnotatedLegacyIsNotCounted` is a signature for which they do not.
- `src/agenticapi/dependencies/solver.py:226-227` says that a stream parameter left without a stream makes the
  call raise `TypeError`. If a later legacy parameter has a default, the call binds and passes the intent
  as the stream (`Binding.StreamMayBeTheIntent`).
- `src/agenticapi/runtime/code_cache.py:50-51`, 191 and 217 call the eviction order insertion order. A
  hit also moves its entry to the recent end (line 254), so the cache keeps the most recently used keys.
  `CacheOrder.EvictsOldestStoredIff` says exactly when the key evicted is the one stored longest ago, and
  `CacheOrder.HitChangesEviction` is a run in which it is not.
- `solve` has no `finally`. Generators opened before a failure are never torn down. `Leaks.LeaksIff` says,
  for all providers, that this happens exactly when a generator is scheduled before the first call that raises
  or, none raising, the depth limit is met after one; `Leaks.RejectedRequestLeaks` is such a request.
- `bump_prerelease` does not always increase precedence: `rc.9.1` becomes `rc.2`
  (`Precedence.NineOneFallsBack`). `Precedence.PrereleaseIncreasesIff` gives the exact condition.
- The depth limit counts providers on the current chain before it consults the cache, so whether a deep
  graph is accepted depends on what was resolved earlier. `DepthLimit.DepthErrorIff` gives the exact
  condition, and `DepthOrder.OrderDecidesDepth` three requests over one path of 33 providers.
- A request that raises records no request metric, although its status variable
  is set (`src/agenticapi/app.py:538-546`); see `LifecycleOrder.AftermathEvents`.

## Model

| member | source | states |
|---|---|---|
| Scanner.ScanHandler | src/agenticapi/dependencies/scanner.py:182-303 | one pass over a signature yields the plan `Scan` describes: kinds in precedence order, the bare leading parameters counted, the first payload model, then the fallback |
| Scanner.FallbackPass | src/agenticapi/dependencies/scanner.py:282-297 | the fallback rewrites the first two parameters no injector claims, and counts them |
| Scanner.ScanKeepsKinds | src/agenticapi/dependencies/scanner.py:208-297 | with or without the fallback, every parameter keeps its place, its name, the kind its own default and annotation give it, and its dependency |
| Scanner.ScannedDependsIsComplete | src/agenticapi/dependencies/scanner.py:213-222 | a scanned parameter is a `Depends` parameter exactly when it carries a dependency, so the solver's "no callable" error cannot come from a scanned provider |
| Scanner.LegacyCountMeaning | src/agenticapi/dependencies/scanner.py:84-86 | the recorded legacy count never exceeds the number of positional arguments, and equals it exactly when each of those parameters is one of the first two, and bare unless the fallback applied |
| Scanner.AnnotatedLegacyIsNotCounted | src/agenticapi/dependencies/scanner.py:84-86 | a witness: an annotated parameter no injector recognises is filled positionally and not counted |
| Scanner.SchemaIsFirst | src/agenticapi/dependencies/scanner.py:225-231 | the payload model is the first one an intent parameter names; there is none only if no intent parameter names one |
| Annotations.KindByAnnotation | src/agenticapi/dependencies/scanner.py:99-180 | a parameter is a dependency iff it has a `Depends` default; otherwise it is an intent, context, tasks, files, headers or stream parameter iff its annotation is that class or a text that names it and none before it in that order |
| Annotations.ContainsIffOccurs | src/agenticapi/dependencies/scanner.py:146 | a text names a class iff the name occurs somewhere in it |
| Annotations.BeforeBracketIs | src/agenticapi/dependencies/scanner.py:110 | a text is an intent text iff it reads `Intent` or starts with `Intent[` |
| Annotations.SchemaByAnnotation | src/agenticapi/dependencies/scanner.py:225-231 | the payload model is that of the first `Intent[T]` annotation that has one |
| Annotations.LegacyCountIs | src/agenticapi/dependencies/scanner.py:260-297 | the recorded legacy count is the number of bare parameters among the first two or, if there is none and no intent or context is annotated, the number of legacy ones among them |
| Annotations.AnnotatedHandlerBinds | src/agenticapi/dependencies/solver.py:210-258 | a handler annotated throughout with the framework's classes can be called, given a stream if it asks for one, and each parameter receives what its class stands for |
| Injector.Injector.CallDependencyProvider | src/agenticapi/dependencies/solver.py:81-120 | a provider call either raises and leaves the state alone, or adds one object and, for a generator, one teardown |
| Injector.Injector.ResolveDependency | src/agenticapi/dependencies/solver.py:123-162 | the in-place resolution of one reference has the result and the final state of `Resolve`; on return the chain is as on entry; at a depth error it has 33 entries; the journal has one entry per completed call, in order |
| Injector.Injector.ResolveSubDependencies | src/agenticapi/dependencies/solver.py:144-153 | the loop over a provider's parameters has the result and the final state of `ResolveParams` |
| Injector.Injector.Solve | src/agenticapi/dependencies/solver.py:165-244 | route dependencies first, then the parameters in order, ending in the result and state of `Solve`; the journal has gained exactly their completed calls, in that order, and the exception that ended them, if one did |
| Injector.Injector.FillCall | src/agenticapi/dependencies/solver.py:210-244 | the parameter loop builds the keyword and positional arguments and the tasks object of `SolvePlan` |
| Injector.Injector.InvokeHandler | src/agenticapi/dependencies/solver.py:247-263 | the handler is called with nothing closed yet, and then, whether it returned or raised, all teardowns on the stack are started, newest first, and the stack ends empty; a failing teardown replaces the outcome |
| Topology.SolveGrounds | src/agenticapi/dependencies/solver.py:144-162 | in every run, failed or not, a provider is called only after everything it needs has completed, with results of earlier calls only; on success every root has completed |
| Topology.SuccessImpliesAcyclic | src/agenticapi/dependencies/solver.py:131-162 | if `solve` returns, no dependency path from a root meets a provider twice, and everything on it has been called |
| Topology.CycleFails | src/agenticapi/dependencies/solver.py:134-138 | a reachable cycle makes `solve` fail whatever the `use_cache` flags, with the depth error if providers return normally |
| Topology.DepthErrorShowsDeepPath | src/agenticapi/dependencies/solver.py:132-138 | a depth error's chain has 33 entries naming a real path of edges that starts at a root |
| Topology.ShallowNeverExceedsDepth | src/agenticapi/dependencies/solver.py:132-142 | if every path from a root has at most 32 providers, the depth error is never raised |
| Topology.MissingCallable | src/agenticapi/dependencies/solver.py:230-235 | a plan with a `Depends` parameter that has no callable is never solved, and an error that says so names such a parameter |
| DepthLimit.DepthErrorIff | src/agenticapi/dependencies/solver.py:132-142 | with providers that return normally, `solve` fails iff some root starts a walk of 33 references, each but the last unserved, that is not shared or not put in the cache by an earlier reference |
| DepthLimit.DeepWalkFails | src/agenticapi/dependencies/solver.py:132-142 | whatever the providers do, such a walk makes `solve` fail, and without one the depth error is never raised |
| DepthLimit.ResolveDeep | src/agenticapi/dependencies/solver.py:134-159 | after a reference has been resolved the cache holds exactly what it held before and what the reference serves |
| DepthLimit.UnsharedDepthErrorIff | src/agenticapi/dependencies/solver.py:132-142 | when nothing is shared, `solve` fails iff a path of 33 providers starts at a root |
| DepthOrder.OrderDecidesDepth | src/agenticapi/dependencies/solver.py:134-142 | a witness: over one path of 33 providers, two route dependencies succeed in one order and fail in the other; and having only the last provider of the path cached does not help |
| Schedule.SolveIsSchedule | src/agenticapi/dependencies/solver.py:123-244 | whatever the providers do, the request makes the calls of the dry run in order and with their arguments until one raises, and ends with that exception; if none raises it ends as the dry run does |
| Schedule.CallsIgnoreValues | src/agenticapi/dependencies/solver.py:140-159 | over one graph any two runs make the same calls with the same argument references, as far as both get |
| Schedule.SolveFailsIff | src/agenticapi/dependencies/solver.py:123-162 | whatever the providers do, `solve` fails iff some scheduled call raises or a root starts a walk too deep, with the exception of the first such call in the former case and the depth error only in the latter |
| Schedule.ScheduleIsPostOrder | src/agenticapi/dependencies/solver.py:131-162 | the schedule calls the unserved references of the graph in post-order, and is cut short iff a root starts a walk too deep |
| Failure.WalkFailsIff | src/agenticapi/dependencies/solver.py:123-162 | when calls raise by provider or depend on their arguments only, `solve` fails iff some walk from a root is too deep or ends at a provider that raises; the first such walk in resolution order names the error, and by then exactly what earlier references reach has been called |
| Transparency.CacheTransparency | src/agenticapi/dependencies/solver.py:140-159 | for deterministic providers the handler gets exactly the values of plain uncached evaluation, an exception is the one that evaluation meets first, a depth error means it needs more than 32 levels, and every object made in the request is what its provider evaluates to |
| Transparency.SolveCompletesPlainEvaluation | src/agenticapi/dependencies/solver.py:123-162 | whenever plain evaluation ends within 32 levels, `solve` ends the same way |
| Transparency.EvaluateMonotone | src/agenticapi/dependencies/solver.py:144-159 | plain evaluation does not depend on its fuel once it ends |
| Sharing.ResolveKeepsLedger | src/agenticapi/dependencies/solver.py:140-159 | resolving a reference keeps the ledger of calls and references, and never overwrites or drops a cache entry |
| Sharing.NotCachedMeanwhile | src/agenticapi/dependencies/solver.py:146-159 | nothing can cache a provider while its own dependencies are being resolved |
| Sharing.SharingAndFreshness | src/agenticapi/dependencies/depends.py:43-46 | shared references to a provider get one object, an unshared reference gets one no other gets, and a provider is called once per unshared reference plus once if it has shared ones |
| Sharing.ReferencesAreDelivered | src/agenticapi/dependencies/solver.py:145-157 | every `Depends` parameter of the handler and of each called provider received the object its own reference resolved to |
| Work.ResolutionsAccounted | src/agenticapi/dependencies/solver.py:146-153 | a solved request resolves each root once and each `Depends` parameter once per call of its provider |
| Work.CalledIffReachable | src/agenticapi/dependencies/solver.py:207-238 | only reachable providers are called; a solved request has called all of them |
| Work.SharedRequestWork | src/agenticapi/dependencies/solver.py:140-160 | with only shared references, each reachable provider is called exactly once, after all it depends on, nothing else is called, and as many references are resolved as there are roots and `Depends` parameters of reachable providers |
| Overrides.ScanSubstitutes | src/agenticapi/dependencies/solver.py:144 | scanning a signature whose callables were replaced gives the plan with its callables replaced |
| Overrides.OverridesCommute | src/agenticapi/dependencies/solver.py:131 | solving under overrides equals, in call, calls, stack, references and error, solving without them the graph rewritten by one lookup per reference |
| Overrides.OverridesApply | src/agenticapi/dependencies/solver.py:131 | each reference of a solved request, of a route, of the handler or of a called provider, got an object of the provider the override map names for its callable, or of the callable itself if the map does not have it |
| Overrides.OverriddenIsNotCalled | src/agenticapi/dependencies/solver.py:131 | in any run, an overridden callable is called only if the map also names it as a stand-in |
| Overrides.OverridesAreNotFollowed | src/agenticapi/dependencies/solver.py:131 | a witness: with a overridden by b and b by c, a reference to a calls b |
| Teardown.SolveMatches | src/agenticapi/dependencies/solver.py:95-115 | the exit stack always lists exactly the generator calls, oldest first |
| Teardown.TeardownSafety | src/agenticapi/dependencies/solver.py:257-263 | closing the stack tears down each generator object exactly once and nothing else, newest first, and no object before one built from it |
| Teardown.OldestFailureWins | src/agenticapi/dependencies/solver.py:262-263 | without failing teardowns the handler's outcome stands; otherwise the exception left is that of the oldest object whose teardown failed |
| Binding.CallBinding | src/agenticapi/dependencies/solver.py:210-244 | the prepared call binds iff the positional arguments meet only parameters without a keyword argument, and the rest of those have defaults; then the positional ones receive the intent and contexts and every other parameter what its kind calls for, or its default |
| Binding.BindableIffLegacyFirst | src/agenticapi/dependencies/solver.py:239-243 | with a stream, or when none is asked for, that condition is that the legacy parameters come first |
| Binding.StreamMayBeTheIntent | src/agenticapi/dependencies/solver.py:223-229 | a stream parameter without a stream can receive the intent instead of failing |
| Binding.TasksAreTheLast | src/agenticapi/dependencies/solver.py:215-218 | each tasks parameter gets an object of its own, the request will run the tasks of the last parameter's, and there is no object without such a parameter |
| Binding.ReadmeSearchDoesNotBind | README.md:213-214 | the documented typed-intent handler with an unannotated context cannot be called |
| Lifecycle.AgenticApp.ProcessIntent | src/agenticapi/app.py:503-569 | the request appends exactly the events of `Process` and has its outcome |
| Lifecycle.AgenticApp.ExecuteIntentStep | src/agenticapi/app.py:762-782 | text scan, then the workflow, harness or handler path |
| Lifecycle.AgenticApp.ExecuteHandlerDirectly | src/agenticapi/app.py:1221-1277 | solve, call the handler, unwind, and make the response or the exception |
| Lifecycle.AgenticApp.FinishRequest | src/agenticapi/app.py:548-567 | session turn, session update, background tasks of the last tasks object, metric |
| LifecycleOrder.EventsInOrder | src/agenticapi/app.py:503-569 | in every request on every path the events come in their fixed order, tasks aside each at most once, teardowns from newest to oldest |
| LifecycleOrder.AliveDuringHandler | src/agenticapi/dependencies/solver.py:257-263 | when the handler is invoked every object of the request has been made and none is closed; each generator object, and no other, is closed once afterwards |
| LifecycleOrder.DirectPathEvents | src/agenticapi/app.py:762-782 | nothing is called unless both checks pass; the handler is invoked iff `solve` returned; an object is torn down iff `solve` returned and a generator made it |
| LifecycleOrder.AftermathEvents | src/agenticapi/app.py:548-567 | turn, session update and metric happen iff the request is admitted and its path gives a response that is neither a framework exception nor rejected by validation; a task runs iff so and the handler put it on the last tasks object it received |
| LifecycleOrder.HandlerFailure | src/agenticapi/app.py:1233-1247 | a framework exception ends the request with teardowns but no turn or tasks; any other becomes an error response with both |
| LifecycleOrder.UnbindableHandler | src/agenticapi/app.py:1233-1247 | unless a teardown fails, a handler whose call cannot bind gives an error response and no tasks |
| LifecycleOrder.RejectedReply | src/agenticapi/app.py:1261-1305 | a result the response model rejects ends the request with that exception of any kind, after the teardowns and without turn or tasks |
| Requests.TurnedAway | src/agenticapi/app.py:503-515 | a request outside the endpoint's scope, or turned away by a text policy, does nothing else and ends with that exception |
| Requests.PathTaken | src/agenticapi/app.py:762-782 | an admitted request takes the workflow's path, else the harness's path if there are a model and a harness and the endpoint is not manual, else the handler's, and ends as that path does |
| Requests.SolveFailure | src/agenticapi/app.py:1222-1230 | if the dependencies fail, the request ends with the provider's exception or the framework's resolution error, and nothing but checks and provider calls happens |
| Requests.HandlerReply | src/agenticapi/app.py:1233-1277 | a bindable handler is run on exactly the prepared arguments with nothing closed; a plain result gives a completed response, an agent response its own status, a raw response a file response, each followed by its turn, the handler's tasks and its metric; a rejected result or a framework exception ends the request, any other exception gives an error response |
| Requests.TeardownFailure | src/agenticapi/dependencies/solver.py:257-263 | a failing teardown makes the request end as if the handler had raised the exception of the oldest object that failed; the handler's tasks stay |
| Leaks.LeaksIff | src/agenticapi/app.py:1222-1234 | whatever the providers do, a generator object stays open iff a generator is scheduled before the first call that raises or, none raising, the depth limit is met after one |
| Leaks.LeaksIffWalk | src/agenticapi/app.py:1222-1234 | when calls raise by provider or depend on their arguments only, that is: some walk from a root fails and the references resolved before the end of the first one that does reach a generator |
| Leaks.RejectedRequestLeaks | src/agenticapi/app.py:1222-1230 | a witness: a generator of fresh objects as first route dependency and a raising check as second leave the generator open |
| CodeCache.InMemoryCodeCache.Lookup | src/agenticapi/runtime/code_cache.py:230-255 | a missing key misses, a stale entry is dropped and misses, a live one is counted and becomes the most recent |
| CodeCache.InMemoryCodeCache.Store | src/agenticapi/runtime/code_cache.py:257-263 | the entry becomes the most recent, and the oldest are evicted down to the limit |
| CodeCache.LookupAnswers | src/agenticapi/runtime/code_cache.py:230-255 | a lookup finds something iff the key has an unexpired entry; that entry gains one hit and becomes the most recent, an expired one is gone, all others stay |
| CodeCache.StoreAnswers | src/agenticapi/runtime/code_cache.py:257-263 | after a store the entry is the most recent, and every other entry is one that was there under another key, all of them if the limit allows |
| CacheOrder.KeptInOrderOfUse | src/agenticapi/runtime/code_cache.py:190-263 | over any run, with or without a time to live, the entries are in the order in which their keys were last stored or found |
| CacheOrder.LeavesOnlyIf | src/agenticapi/runtime/code_cache.py:230-263 | a key leaves only when a lookup finds it expired, or when a new key is stored in a full cache of keys all used after it |
| CacheOrder.LeavesIff | src/agenticapi/runtime/code_cache.py:230-263 | with or without a time to live, a held key leaves iff a lookup finds it expired, or a new key is stored in a full cache in which none was last used before it |
| CacheOrder.EvictsOldestStoredIff | src/agenticapi/runtime/code_cache.py:191-196 | the key stored longest ago is the one evicted iff no other held key was last used before it |
| CacheOrder.HitChangesEviction | src/agenticapi/runtime/code_cache.py:252-263 | a witness: of two entries, the older one outlives the younger after a hit |
| CacheOrder.HoldsMostRecentlyUsed | src/agenticapi/runtime/code_cache.py:190-263 | without a time to live the cache holds exactly the most recently used keys, in order of use, over any run |
| CodePath.CacheServesApprovedCode | src/agenticapi/app.py:895-980 | over any run with arbitrary evictions: cached code was executed cleanly for an earlier request with its key, hits are executed again, and code is saved only right after a miss, one generator call and a clean execution |
| CodePath.GeneratorRunsPerMiss | src/agenticapi/app.py:930-946 | each request is one hit or one miss, and the generator runs exactly once per miss |
| CodePath.LogTellsWhatHappened | src/agenticapi/app.py:935-980 | the log has what the harness answered for the code it was given, and a save iff freshly generated code finished with a trace without an error |
| CodePath.HarnessPath.ServeRequest | src/agenticapi/app.py:895-989 | with the in-memory cache, one request is one step of that run between evictions; it answers with the code executed, or the exception of the generator or the harness, and stores the generated code with the current time iff it was executed cleanly |
| CodePath.LookupRefines | src/agenticapi/runtime/code_cache.py:230-255 | a lookup is a backend forgetting an expired key and then answering |
| CodePath.StoreRefines | src/agenticapi/runtime/code_cache.py:257-263 | a store sets the key and then forgets what no longer fits |
| Pipeline.DynamicPipeline.constructor | src/agenticapi/application/pipeline.py:82-84 | the last available stage of a name wins |
| Pipeline.LastStageWins | src/agenticapi/application/pipeline.py:82-84 | a name is available iff a stage has it, and then as the last one that does |
| Pipeline.ChosenInTurn | src/agenticapi/application/pipeline.py:131-137 | no names choose nothing, one name chooses its stage if there is one, and more names choose in turn |
| Pipeline.DynamicPipeline.ExecutePipeline | src/agenticapi/application/pipeline.py:107-164 | gather, bound, sort, and fold the handlers, as `Execute` says |
| Pipeline.StableSortSorts | src/agenticapi/application/pipeline.py:142 | the sort gives a sorted permutation that keeps stages of equal order in sequence |
| Pipeline.StableSortUnique | src/agenticapi/application/pipeline.py:142 | there is only one such arrangement |
| Pipeline.SameScheduleIffSameTies | src/agenticapi/application/pipeline.py:129-142 | two gatherings run in the same sequence iff they agree on every group of equal orders |
| Pipeline.ExecutionSchedule | src/agenticapi/application/pipeline.py:130-164 | a finished run executed exactly the stages with handlers in stable order, every base stage among them; too many stages run none |
| Pipeline.ContextsThread | src/agenticapi/application/pipeline.py:144-153 | a finished run threads one context through the stages: a returned dictionary replaces it, otherwise what the handler left in it goes on |
| Pipeline.ExecutionThreads | src/agenticapi/application/pipeline.py:144-164 | a finished execution threads the context it was given through the sorted stages and ends with the last of those contexts |
| Pipeline.RunStops | src/agenticapi/application/pipeline.py:144-156 | a failing run ends with the exception of the first handler that raises, given what those before it left |
| Pipeline.SelectionOrderIrrelevant | src/agenticapi/application/pipeline.py:131-142 | with pairwise distinct orders, permuting the selection changes nothing |
| Pipeline.RunSplits | src/agenticapi/application/pipeline.py:141-164 | running the stages up to an order, then the rest, is one full run |
| SemVer.ParseReadsPattern | src/agenticapi/cli/bump.py:34-49 | a tag is accepted as version v iff it is three numerals with the values of v and its grammatical prerelease, if any, with perhaps a `v` before and a newline after |
| SemVer.GrammaticalMeans | src/agenticapi/cli/bump.py:34-37 | a prerelease is grammatical iff it has only ASCII letters, digits and dots, and no dot is first, last or next to another |
| SemVer.RoundTrip | src/agenticapi/cli/bump.py:34-49 | parsing undoes printing, with and without the `v`, iff the prerelease is absent or grammatical |
| SemVer.PrintsCanonically | src/agenticapi/cli/bump.py:68-74 | the printed form is the spelling without leading zeros, and the tag is that after a `v` |
| SemVer.NumberIsPositional | src/agenticapi/cli/bump.py:45-47 | a numeral has its decimal value |
| SemVer.ParseNormalises | src/agenticapi/cli/bump.py:39-49 | an accepted text, with `v`, leading zeros or a final newline, parses to the same version once printed |
| Precedence.PrecedesIsStrictOrder | src/agenticapi/cli/bump.py:25-32 | precedence by section 11 of Semantic Versioning 2.0.0 is irreflexive and transitive |
| Precedence.StandardExample | src/agenticapi/cli/bump.py:25-32 | the order has the standard's own example, from `1.0.0-alpha` to `1.0.0` |
| Precedence.BumpTakesLastNumber | src/agenticapi/cli/bump.py:60-64 | whatever stands between the prefix and the last number, the bump gives the prefix and the number after it |
| Precedence.PrereleaseIncreasesIff | src/agenticapi/cli/bump.py:60-66 | when a prerelease bump raises, and exactly when it increases precedence |
| Precedence.TwoCountersFallBack | src/agenticapi/cli/bump.py:60-66 | with two counters, the second below the first, a prerelease bump gives a lower precedence |
| Precedence.NineOneFallsBack | src/agenticapi/cli/bump.py:60-66 | a witness: 1.0.0-rc.9.1 becomes 1.0.0-rc.2 |
| Precedence.BumpIncreases | src/agenticapi/cli/bump.py:51-66 | every bump of a release or counted prerelease succeeds, keeps that shape and increases precedence |
| Precedence.BumpsAreLeast | src/agenticapi/cli/bump.py:51-66 | major, minor and patch bumps give a release that raises that part and keeps those before it, and the least such release; a prerelease bump gives the next value of its counter, or opens the next patch's counter at 1 |
| Precedence.EveryRunIncreases | src/agenticapi/cli/bump.py:51-74 | in a run of any length, later versions have higher precedence and no tag is made twice |
| Diff.DiffValues | src/agenticapi/cli/replay.py:128-172 | the loops compute the report `DiffOf`, keys sorted, list changes stopping at the fifth |
| Text.TextLessMeans | src/agenticapi/cli/replay.py:141-142 | one text sorts before another iff, after a common part, it ends or has the lower character |
| Diff.EmptyIffEqual | src/agenticapi/cli/replay.py:136-154 | the report is empty iff the values are equal |
| Diff.DiffMirrors | src/agenticapi/cli/replay.py:140-172 | swapping the arguments mirrors the report |
| Diff.ListReportRebuilds | src/agenticapi/cli/replay.py:155-170 | the changes are, in ascending order and with both values, exactly the differing indices up to the fifth, or all if there are fewer; patching with them rebuilds the live list that far |
| Diff.FieldReportRebuilds | src/agenticapi/cli/replay.py:140-154 | the report lists, in ascending order, exactly the new and the missing keys, and exactly the common keys whose value changed; it decides all of the live dictionary but the values of new keys |
| Diff.ValueReport | src/agenticapi/cli/replay.py:171-172 | values that are neither two dictionaries nor two lists are reported whole, the historical one first |
| Diff.ReplayStatus | src/agenticapi/cli/replay.py:297-317 | the status is identical iff the response is no error and its result equals the recorded one |
| RateLimiter.RateLimit.Call | examples/14_dependency_injection/app.py:288-301 | a call is accepted iff fewer than ten accepted calls are at most 60 seconds old, that is, iff there are fewer than ten or the tenth from the end is older |
| RateLimiter.PruneTracks | examples/14_dependency_injection/app.py:297-298 | popping leaves exactly the accepted calls of the last 60 seconds |
| RateLimiter.LimiterKeepsLimit | examples/14_dependency_injection/app.py:288-301 | no closed 60-second interval contains more than ten accepted calls, and each comes more than 60 seconds after the tenth before it; the window is sorted and no longer than ten |

## Left out

- The streaming request path, reconnect and resume handlers: they rest on transports that are not part of this model.
- Policies, sandbox, approval, budget, workflow engine, agentic loop and mesh: where `app.py` calls them they are arbitrary outcomes.
- Sessions, intent parsing, tracing and request timing: `get_or_create` and `parse` come before the first event of the model.
- Concurrency: the solver awaits one provider at a time, and one request is modelled at a time; interleaved requests that share the code cache are not.
- Generator providers that yield more than once, and exceptions outside Python's `Exception`.
- Python reflection: annotations arrive resolved, or as text when they could not be; keyword-only and variadic parameters are not modelled.
- The chaining (`__context__`) of an exception that a later one replaces.
- The code path without a cache configured, where every request generates, and the prefetch of tool data before it.
- Cache keys are opaque digests; that different requests get different keys is not claimed.
- CacheOrder.HoldsMostRecentlyUsed: covers caches without a time to live; an expired entry leaves a gap that evicted keys do not fill. `CacheOrder.KeptInOrderOfUse` and `CacheOrder.LeavesIff` cover the others step by step.
- Failure.WalkFailsIff: covers worlds in which each provider always raises or never does, or in which outcomes depend on arguments only; for the others the walk at whose end a call raises depends on how many calls came before, and `Schedule.SolveFailsIff` names the call by its number.
- Leaks.LeaksIffWalk: covers the same worlds as `Failure.WalkFailsIff`; `Leaks.LeaksIff` covers all.
- `clear` and the size queries of the code cache.
- Aliasing of pipeline contexts: a handler may change the dictionary it is given while it runs, but not later through a kept reference.
- Non-ASCII digits in version tags, and `int()` of identifiers outside the tag grammar.
- Precedence.EveryRunIncreases: starts from releases and counted prereleases and uses alphanumeric prefixes; other starts are covered bump by bump in `Precedence.PrereleaseIncreasesIff`.
- Python's equality across numeric types and NaN in replay diffs; numbers are exact.
- The clock of the rate limiter is exact, and never runs backwards, as `time.monotonic` promises.
- `scripts/bump_version.py`, which repeats the version class, git calls, and command-line output.
