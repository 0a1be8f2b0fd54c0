/**
 How the code-generation path uses the approved-code cache: look up, generate
 on a miss, execute through the harness in both cases, store on a clean miss.
 */
module CodePath {
  import opened Wrappers
  import opened CodeCache

  /** `trace` is the audit trace of a finished execution, by its error; the harness may give none. */
  datatype Execution = Aborted(error: Exception) | Finished(trace: Option<Option<string>>)

  /** Finished, with a trace, and the trace records no error. */
  const APPROVED := Finished(Some(None))

  predicate Clean(x: Execution) {
    x.Finished? && x.trace.Some? && x.trace.value.None?
  }

  /** A request under its cache key: what the generator would answer, and how the harness executes code for it. */
  datatype Request = Request(key: Key, generate: Result<Code, Exception>, execute: Code -> Execution)

  datatype Event =
    | Hit(key: Key, code: Code)
    | Miss(key: Key)
    | GeneratorCalled(key: Key)
    | Executed(key: Key, code: Code, result: Execution)
    | Saved(key: Key, code: Code)

  /** The events of one request, given what the lookup found. */
  function ServeEvents(found: Option<Code>, req: Request): seq<Event> {
    if found.Some? then
      [Hit(req.key, found.value), Executed(req.key, found.value, req.execute(found.value))]
    else
      [Miss(req.key), GeneratorCalled(req.key)]
      + (if req.generate.Err? then []
         else [Executed(req.key, req.generate.value, req.execute(req.generate.value))])
      + (if Saves(found, req) then [Saved(req.key, req.generate.value)] else [])
  }

  predicate Saves(found: Option<Code>, req: Request) {
    found.None? && req.generate.Ok? && Clean(req.execute(req.generate.value))
  }

  /** The log tells what the harness answered, and of a save exactly after a generation that it approved. */
  lemma {:induction false} LogTellsWhatHappened(found: Option<Code>, req: Request)
    ensures forall e :: e in ServeEvents(found, req) && e.Executed? ==> e.result == req.execute(e.code)
    ensures (exists e :: e in ServeEvents(found, req) && e.Saved?)
            <==> found.None? && req.generate.Ok? && req.execute(req.generate.value) == APPROVED
    ensures (exists e :: e in ServeEvents(found, req) && e.Executed?) <==> found.Some? || req.generate.Ok?
  {
    var events := ServeEvents(found, req);
    if found.Some? {
      assert events[1].Executed?;
    } else if req.generate.Ok? {
      assert events[2].Executed?;
      assert Saves(found, req) ==> events[3].Saved?;
    }
  }

  // ----- Runs over any cache backend: a backend may forget keys whenever it likes

  datatype Op = Serve(req: Request) | Evict(keys: set<Key>)

  datatype State = State(cached: map<Key, Code>, log: seq<Event>)

  function Lookup(cached: map<Key, Code>, key: Key): Option<Code> {
    if key in cached then Some(cached[key]) else None
  }

  function Perform(st: State, op: Op): State {
    match op
    case Evict(keys) => st.(cached := st.cached - keys)
    case Serve(req) =>
      var found := Lookup(st.cached, req.key);
      State(if Saves(found, req) then st.cached[req.key := req.generate.value] else st.cached,
            st.log + ServeEvents(found, req))
  }

  function PerformAll(ops: seq<Op>): State {
    if ops == [] then State(map[], []) else Perform(PerformAll(ops[..|ops| - 1]), ops[|ops| - 1])
  }

  /** Position i is explained by what surrounds it. */
  predicate Justified(log: seq<Event>, i: nat)
    requires i < |log|
  {
    match log[i]
    case Hit(key, code) =>
      && i + 1 < |log| && log[i + 1].Executed? && log[i + 1].key == key && log[i + 1].code == code
      && Executed(key, code, APPROVED) in log[..i]
    case Saved(key, code) =>
      && i >= 3 && log[i - 3] == Miss(key) && log[i - 2] == GeneratorCalled(key)
      && log[i - 1] == Executed(key, code, APPROVED)
    case GeneratorCalled(key) => i >= 1 && log[i - 1] == Miss(key)
    case Miss(key) => i + 1 < |log| && log[i + 1] == GeneratorCalled(key)
    case Executed(key, code, _) => i >= 1 && (log[i - 1] == Hit(key, code) || log[i - 1] == GeneratorCalled(key))
  }

  ghost predicate Sound(st: State) {
    && (forall key :: key in st.cached ==> Executed(key, st.cached[key], APPROVED) in st.log)
    && (forall i :: 0 <= i < |st.log| ==> Justified(st.log, i))
  }

  lemma {:induction false} JustifiedStays(log: seq<Event>, later: seq<Event>, i: nat)
    requires log <= later && i < |log| && Justified(log, i)
    ensures Justified(later, i)
  {
    assert later[..i] == log[..i];
  }

  lemma {:induction false} HitIsJustified(log: seq<Event>, key: Key, code: Code, result: Execution, i: nat)
    requires Executed(key, code, APPROVED) in log && |log| <= i < |log| + 2
    ensures Justified(log + [Hit(key, code), Executed(key, code, result)], i)
  {
    var later := log + [Hit(key, code), Executed(key, code, result)];
    assert later[..|log|] == log;
  }

  lemma {:induction false} MissIsJustified(log: seq<Event>, req: Request, i: nat)
    requires |log| <= i < |log| + |ServeEvents(None, req)|
    ensures Justified(log + ServeEvents(None, req), i)
  {
    var events, n := ServeEvents(None, req), |log|;
    assert forall k :: 0 <= k < |events| ==> (log + events)[n + k] == events[k];
  }

  lemma {:induction false} NewIsJustified(st: State, req: Request, i: nat)
    requires Sound(st)
    requires |st.log| <= i < |st.log| + |ServeEvents(Lookup(st.cached, req.key), req)|
    ensures Justified(st.log + ServeEvents(Lookup(st.cached, req.key), req), i)
  {
    var found := Lookup(st.cached, req.key);
    if found.Some? {
      HitIsJustified(st.log, req.key, found.value, req.execute(found.value), i);
    } else {
      MissIsJustified(st.log, req, i);
    }
  }

  lemma {:induction false} ServeIsSound(st: State, req: Request)
    requires Sound(st)
    ensures Sound(Perform(st, Serve(req)))
  {
    var events := ServeEvents(Lookup(st.cached, req.key), req);
    var log := st.log + events;
    assert Perform(st, Serve(req)).log == log;
    forall i | 0 <= i < |log| ensures Justified(log, i) {
      if i < |st.log| {
        JustifiedStays(st.log, log, i);
      } else {
        NewIsJustified(st, req, i);
      }
    }
    if Saves(Lookup(st.cached, req.key), req) {
      assert log[|st.log| + 2] == Executed(req.key, req.generate.value, APPROVED);
    }
  }

  /**
   Over any run with arbitrary evictions: cached code has been executed
   cleanly for an earlier request with the same key; every hit serves such
   code and goes through the harness again; code is saved only right after a
   miss, one generator call and a clean execution, never on a hit or after a
   failure; and the generator is called exactly at the misses.
   */
  lemma {:induction false} CacheServesApprovedCode(ops: seq<Op>)
    ensures Sound(PerformAll(ops))
    decreases |ops|
  {
    if ops != [] {
      var before := ops[..|ops| - 1];
      CacheServesApprovedCode(before);
      var st, op := PerformAll(before), ops[|ops| - 1];
      if op.Serve? {
        ServeIsSound(st, op.req);
      }
    }
  }

  // ----- Counting

  function Count(log: seq<Event>, kind: Event -> bool): nat {
    if log == [] then 0 else Count(log[..|log| - 1], kind) + if kind(log[|log| - 1]) then 1 else 0
  }

  lemma {:induction false} CountConcat(a: seq<Event>, b: seq<Event>, kind: Event -> bool)
    ensures Count(a + b, kind) == Count(a, kind) + Count(b, kind)
    decreases |b|
  {
    if b == [] {
      assert a + b == a;
    } else {
      assert (a + b)[..|a + b| - 1] == a + b[..|b| - 1];
      CountConcat(a, b[..|b| - 1], kind);
    }
  }

  function Requests(ops: seq<Op>): nat {
    if ops == [] then 0 else Requests(ops[..|ops| - 1]) + if ops[|ops| - 1].Serve? then 1 else 0
  }

  const IS_HIT := (e: Event) => e.Hit?
  const IS_MISS := (e: Event) => e.Miss?
  const IS_GENERATOR_CALL := (e: Event) => e.GeneratorCalled?

  lemma {:induction false} CountParts(events: seq<Event>, kind: Event -> bool)
    requires |events| >= 2 && forall i :: 2 <= i < |events| ==> !kind(events[i])
    ensures Count(events, kind) == (if kind(events[0]) then 1 else 0) + (if kind(events[1]) then 1 else 0)
  {
    assert events == [events[0]] + [events[1]] + events[2..];
    CountConcat([events[0]], [events[1]], kind);
    CountConcat([events[0]] + [events[1]], events[2..], kind);
    NoneCounted(events[2..], kind);
    assert [events[0]][..0] == [] && [events[1]][..0] == [];
  }

  lemma {:induction false} ServeCounts(found: Option<Code>, req: Request)
    ensures var events := ServeEvents(found, req);
            && Count(events, IS_HIT) + Count(events, IS_MISS) == 1
            && Count(events, IS_GENERATOR_CALL) == Count(events, IS_MISS)
  {
    var events := ServeEvents(found, req);
    CountParts(events, IS_HIT);
    CountParts(events, IS_MISS);
    CountParts(events, IS_GENERATOR_CALL);
  }

  lemma {:induction false} NoneCounted(log: seq<Event>, kind: Event -> bool)
    requires forall i :: 0 <= i < |log| ==> !kind(log[i])
    ensures Count(log, kind) == 0
    decreases |log|
  {
    if log != [] {
      NoneCounted(log[..|log| - 1], kind);
    }
  }

  /** Each request is one hit or one miss, and the generator runs exactly once per miss. */
  lemma {:induction false} GeneratorRunsPerMiss(ops: seq<Op>)
    ensures var log := PerformAll(ops).log;
            && Count(log, IS_HIT) + Count(log, IS_MISS) == Requests(ops)
            && Count(log, IS_GENERATOR_CALL) == Count(log, IS_MISS)
    decreases |ops|
  {
    if ops != [] {
      var before, op := ops[..|ops| - 1], ops[|ops| - 1];
      GeneratorRunsPerMiss(before);
      if op.Serve? {
        var st := PerformAll(before);
        var found := Lookup(st.cached, op.req.key);
        var events := ServeEvents(found, op.req);
        ServeCounts(found, op.req);
        CountConcat(st.log, events, IS_HIT);
        CountConcat(st.log, events, IS_MISS);
        CountConcat(st.log, events, IS_GENERATOR_CALL);
      }
    }
  }

  // ----- The path with the in-memory cache refines such a run

  /** The entries hold exactly the cached code, key by key. */
  ghost predicate Mirrors(entries: seq<CachedCode>, cached: map<Key, Code>) {
    forall key :: Stored(entries, key) == Lookup(cached, key)
  }

  function Stored(entries: seq<CachedCode>, key: Key): Option<Code> {
    var found := Find(entries, key);
    if found.Some? then Some(found.value.code) else None
  }

  lemma {:induction false} FindAfterRemove(entries: seq<CachedCode>, key: Key, other: Key)
    ensures Find(Remove(entries, key), other) == if other == key then None else Find(entries, other)
    decreases |entries|
  {
    if entries != [] {
      FindAfterRemove(entries[1..], key, other);
    }
  }

  lemma {:induction false} FindInExtended(entries: seq<CachedCode>, entry: CachedCode, other: Key)
    ensures Find(entries + [entry], other) ==
            if Find(entries, other).Some? then Find(entries, other)
            else if entry.key == other then Some(entry) else None
    decreases |entries|
  {
    if entries != [] {
      assert (entries + [entry])[1..] == entries[1..] + [entry];
      FindInExtended(entries[1..], entry, other);
    }
  }

  lemma {:induction false} FindAfterFreshen(entries: seq<CachedCode>, entry: CachedCode, other: Key)
    ensures Find(Freshen(entries, entry), other) == if other == entry.key then Some(entry) else Find(entries, other)
  {
    FindAfterRemove(entries, entry.key, other);
    FindInExtended(Remove(entries, entry.key), entry, other);
  }

  lemma {:induction false} FindInSuffix(entries: seq<CachedCode>, n: nat, key: Key)
    requires DistinctKeys(entries) && n <= |entries|
    ensures Find(entries[n..], key).Some? ==> Find(entries[n..], key) == Find(entries, key)
    decreases n
  {
    if n > 0 {
      assert entries[1..][n - 1..] == entries[n..];
      FindInSuffix(entries[1..], n - 1, key);
      FindFinds(entries[1..], key);
    }
  }

  /** A lookup is the backend forgetting an expired entry, if there is one, and then answering. */
  lemma {:induction false} LookupRefines(entries: seq<CachedCode>, ttl: Option<int>, key: Key, now: int,
                                         cached: map<Key, Code>)
    requires Mirrors(entries, cached) && DistinctKeys(entries)
    ensures var found := LiveCode(entries, ttl, key, now);
            var rest := cached - (if found.None? then {key} else {});
            Mirrors(Get(entries, ttl, key, now).0, rest) && Lookup(rest, key) == found
  {
    FindFinds(entries, key);
    var found := LiveCode(entries, ttl, key, now);
    var rest := cached - (if found.None? then {key} else {});
    assert Stored(entries, key) == Lookup(cached, key);
    forall other
      ensures Stored(Get(entries, ttl, key, now).0, other) == Lookup(rest, other)
    {
      assert Stored(entries, other) == Lookup(cached, other);
      FindAfterRemove(entries, key, other);
      if Find(entries, key).Some? {
        var entry := Find(entries, key).value;
        FindAfterFreshen(entries, entry.(hits := entry.hits + 1), other);
      }
    }
  }

  function Forgotten(entries: seq<CachedCode>, cached: map<Key, Code>): set<Key> {
    set key | key in cached && Find(entries, key).None?
  }

  /** A store sets the key, after which the backend forgets what no longer fits. */
  lemma {:induction false} StoreRefines(entries: seq<CachedCode>, maxEntries: nat, entry: CachedCode,
                                        cached: map<Key, Code>)
    requires Mirrors(entries, cached) && DistinctKeys(entries)
    ensures var put, updated := Put(entries, maxEntries, entry), cached[entry.key := entry.code];
            Mirrors(put, updated - Forgotten(put, updated))
  {
    var all, put, updated := Freshen(entries, entry), Put(entries, maxEntries, entry), cached[entry.key := entry.code];
    RemoveMembers(entries, entry.key);
    assert DistinctKeys(all);
    forall key
      ensures Stored(put, key) == Lookup(updated - Forgotten(put, updated), key)
    {
      assert Stored(entries, key) == Lookup(cached, key);
      FindAfterFreshen(entries, entry, key);
      if |all| > maxEntries {
        FindInSuffix(all, |all| - maxEntries, key);
      }
    }
  }

  /** The code a lookup serves, if it finds a live entry. */
  function LiveCode(entries: seq<CachedCode>, ttl: Option<int>, key: Key, now: int): Option<Code> {
    var found := Get(entries, ttl, key, now).1;
    if found.Some? then Some(found.value.code) else None
  }

  lemma {:induction false} PerformNext(ops: seq<Op>, op: Op)
    ensures PerformAll(ops + [op]) == Perform(PerformAll(ops), op)
  {
    assert (ops + [op])[..|ops|] == ops;
  }

  /** What a request answers: the cached or the generated code, or the exception of the generator or the harness. */
  predicate Serves(live: Option<Code>, req: Request, r: Result<Code, Exception>) {
    if live.None? && req.generate.Err? then r == Err(req.generate.error)
    else
      var code := if live.Some? then live.value else req.generate.value;
      match req.execute(code)
      case Aborted(e) => r == Err(e)
      case Finished(_) => r == Ok(code)
  }

  class HarnessPath {
    const codeCache: InMemoryCodeCache
    var log: seq<Event>
    /** The run of the abstract cache that this object has performed. */
    ghost var ops: seq<Op>

    ghost predicate Valid()
      reads this, codeCache
    {
      codeCache.Valid() && Mirrors(codeCache.entries, PerformAll(ops).cached) && log == PerformAll(ops).log
    }

    constructor (cache: InMemoryCodeCache)
      requires cache.Valid() && cache.entries == []
      ensures Valid() && codeCache == cache && log == []
    {
      codeCache, log, ops := cache, [], [];
    }

    /** The lookup, with the run it corresponds to. */
    method Consult(key: Key, now: int) returns (code: Option<Code>)
      requires Valid()
      modifies this`ops, codeCache`entries
      ensures Valid() && log == old(log)
      ensures code == LiveCode(old(codeCache.entries), codeCache.ttl, key, now)
      ensures codeCache.entries == Get(old(codeCache.entries), codeCache.ttl, key, now).0
      ensures code == Lookup(PerformAll(ops).cached, key)
      ensures exists gone :: ops == old(ops) + [Evict(gone)]
    {
      ghost var entries := codeCache.entries;
      var found := codeCache.Lookup(key, now);
      code := if found.Some? then Some(found.value.code) else None;
      LookupRefines(entries, codeCache.ttl, key, now, PerformAll(ops).cached);
      ghost var gone := if found.None? then {key} else {};
      PerformNext(ops, Evict(gone));
      ops := ops + [Evict(gone)];
    }

    /** Storing a clean execution's code, with the run it corresponds to. */
    method Populate(req: Request, code: Code, now: int)
      requires codeCache.Valid() && Mirrors(codeCache.entries, PerformAll(ops).cached)
      requires Saves(Lookup(PerformAll(ops).cached, req.key), req) && code == req.generate.value
      requires log == PerformAll(ops).log + ServeEvents(Lookup(PerformAll(ops).cached, req.key), req)
      modifies this`ops, codeCache`entries
      ensures Valid() && exists gone :: ops == old(ops) + [Serve(req)] + [Evict(gone)]
      ensures codeCache.entries == Put(old(codeCache.entries), codeCache.maxEntries, CachedCode(req.key, code, now, 0))
    {
      ghost var entries, st := codeCache.entries, PerformAll(ops);
      var entry := CachedCode(req.key, code, now, 0);
      codeCache.Store(entry);
      StoreRefines(entries, codeCache.maxEntries, entry, st.cached);
      PerformNext(ops, Serve(req));
      ops := ops + [Serve(req)];
      ghost var gone := Forgotten(codeCache.entries, st.cached[req.key := code]);
      PerformNext(ops, Evict(gone));
      ops := ops + [Evict(gone)];
    }

    /**
     One request.  What it does is one `Serve` of the abstract run, between
     evictions, so `CacheServesApprovedCode` and `GeneratorRunsPerMiss` speak of this log.
     */
    method ServeRequest(req: Request, now: int) returns (r: Result<Code, Exception>)
      requires Valid()
      modifies this`log, this`ops, codeCache`entries
      ensures Valid()
      ensures var found := LiveCode(old(codeCache.entries), codeCache.ttl, req.key, now);
              && log == old(log) + ServeEvents(found, req)
              && Serves(found, req, r)
              && var looked := Get(old(codeCache.entries), codeCache.ttl, req.key, now).0;
              codeCache.entries ==
              if found.None? && req.generate.Ok? && req.execute(req.generate.value) == APPROVED
              then Put(looked, codeCache.maxEntries, CachedCode(req.key, req.generate.value, now, 0))
              else looked
      ensures exists a, b :: ops == old(ops) + [Evict(a)] + [Serve(req)] + [Evict(b)]
    {
      var cachedCode := Consult(req.key, now);
      ghost var start := log;
      var code: Code;
      if cachedCode.Some? {
        log := log + [Hit(req.key, cachedCode.value)];
        code := cachedCode.value;
      } else {
        log := log + [Miss(req.key)] + [GeneratorCalled(req.key)];
        if req.generate.Err? {
          RecordUnsaved(req);
          return Err(req.generate.error);
        }
        code := req.generate.value;
      }
      var result := req.execute(code);
      log := log + [Executed(req.key, code, result)];
      if cachedCode.None? && Clean(result) {
        log := log + [Saved(req.key, code)];
        assert log == start + ServeEvents(cachedCode, req);
        Populate(req, code, now);
      } else {
        assert log == start + ServeEvents(cachedCode, req);
        RecordUnsaved(req);
      }
      match result
      case Aborted(e) => r := Err(e);
      case Finished(_) => r := Ok(code);
    }

    /** A request that saved nothing is also one `Serve` of the abstract run. */
    ghost method RecordUnsaved(req: Request)
      requires codeCache.Valid() && Mirrors(codeCache.entries, PerformAll(ops).cached)
      requires !Saves(Lookup(PerformAll(ops).cached, req.key), req)
      requires log == PerformAll(ops).log + ServeEvents(Lookup(PerformAll(ops).cached, req.key), req)
      modifies this`ops
      ensures Valid() && ops == old(ops) + [Serve(req)] + [Evict({})]
    {
      PerformNext(ops, Serve(req));
      ops := ops + [Serve(req)];
      PerformNext(ops, Evict({}));
      ops := ops + [Evict({})];
    }
  }
}
