/** What the in-memory cache keeps, and what it evicts, over whole runs. */
module CacheOrder {
  import opened Wrappers
  import opened CodeCache

  /** One use of the cache: a store, or a lookup at some time. */
  datatype Use = Stored(entry: CachedCode) | Looked(key: Key, now: int)

  function Apply(entries: seq<CachedCode>, maxEntries: nat, ttl: Option<int>, use: Use): seq<CachedCode> {
    match use
    case Stored(entry) => Put(entries, maxEntries, entry)
    case Looked(key, now) => Get(entries, ttl, key, now).0
  }

  function ApplyAll(maxEntries: nat, ttl: Option<int>, uses: seq<Use>): seq<CachedCode> {
    if uses == [] then []
    else Apply(ApplyAll(maxEntries, ttl, uses[..|uses| - 1]), maxEntries, ttl, uses[|uses| - 1])
  }

  // ----- When a key was last stored, and last used

  /** The use stores the key, or looks for it and finds it. */
  predicate UsesKey(maxEntries: nat, ttl: Option<int>, before: seq<Use>, use: Use, key: Key) {
    match use
    case Stored(entry) => entry.key == key
    case Looked(k, now) => k == key && Get(ApplyAll(maxEntries, ttl, before), ttl, key, now).1.Some?
  }

  function LastUse(maxEntries: nat, ttl: Option<int>, uses: seq<Use>, key: Key): (r: int)
    ensures -1 <= r < |uses|
  {
    if uses == [] then -1
    else if UsesKey(maxEntries, ttl, uses[..|uses| - 1], uses[|uses| - 1], key) then |uses| - 1
    else LastUse(maxEntries, ttl, uses[..|uses| - 1], key)
  }

  function LastStore(uses: seq<Use>, key: Key): (r: int)
    ensures -1 <= r < |uses|
  {
    if uses == [] then -1
    else if uses[|uses| - 1].Stored? && uses[|uses| - 1].entry.key == key then |uses| - 1
    else LastStore(uses[..|uses| - 1], key)
  }

  predicate Ascending(entries: seq<CachedCode>, rank: Key -> int) {
    forall i, j :: 0 <= i < j < |entries| ==> rank(entries[i].key) < rank(entries[j].key)
  }

  lemma {:induction false} RemoveAscends(entries: seq<CachedCode>, rank: Key -> int, key: Key)
    requires Ascending(entries, rank)
    ensures Ascending(Remove(entries, key), rank)
    decreases |entries|
  {
    if entries != [] {
      RemoveAscends(entries[1..], rank, key);
      RemoveMembers(entries[1..], key);
      forall i | 0 <= i < |Remove(entries[1..], key)|
        ensures rank(entries[0].key) < rank(Remove(entries[1..], key)[i].key)
      {
        assert Remove(entries[1..], key)[i] in entries[1..];
      }
    }
  }

  lemma {:induction false} FreshenAscends(entries: seq<CachedCode>, rank: Key -> int, after: Key -> int,
                                          entry: CachedCode)
    requires Ascending(entries, rank)
    requires forall k :: k != entry.key ==> after(k) == rank(k) < after(entry.key)
    ensures Ascending(Freshen(entries, entry), after)
  {
    RemoveAscends(entries, rank, entry.key);
    RemoveMembers(entries, entry.key);
    var kept := Remove(entries, entry.key);
    assert forall i :: 0 <= i < |kept| ==> kept[i] in kept;
  }

  /** At any time, the entries are those of distinct keys, in the order in which these were last used. */
  lemma {:induction false} KeptInOrderOfUse(maxEntries: nat, ttl: Option<int>, uses: seq<Use>)
    requires maxEntries >= 1
    ensures Ascending(ApplyAll(maxEntries, ttl, uses), k => LastUse(maxEntries, ttl, uses, k))
    ensures |ApplyAll(maxEntries, ttl, uses)| <= maxEntries
    decreases |uses|
  {
    if uses != [] {
      var before, last := uses[..|uses| - 1], uses[|uses| - 1];
      var entries := ApplyAll(maxEntries, ttl, before);
      var rank, after := k => LastUse(maxEntries, ttl, before, k), k => LastUse(maxEntries, ttl, uses, k);
      KeptInOrderOfUse(maxEntries, ttl, before);
      match last
      case Stored(entry) =>
        FreshenAscends(entries, rank, after, entry);
      case Looked(key, now) =>
        LookupAscends(entries, ttl, key, now, rank, after);
        LookupShrinks(entries, ttl, key, now);
    }
  }

  lemma {:induction false} LookupAscends(entries: seq<CachedCode>, ttl: Option<int>, key: Key, now: int,
                                         rank: Key -> int, after: Key -> int)
    requires Ascending(entries, rank)
    requires if Get(entries, ttl, key, now).1.Some? then forall k :: k != key ==> after(k) == rank(k) < after(key)
             else forall k :: after(k) == rank(k)
    ensures Ascending(Get(entries, ttl, key, now).0, after)
  {
    FindFinds(entries, key);
    var found := Find(entries, key);
    if Get(entries, ttl, key, now).1.Some? {
      FreshenAscends(entries, rank, after, found.value.(hits := found.value.hits + 1));
    } else if found.Some? {
      RemoveAscends(entries, rank, key);
    }
  }

  lemma {:induction false} LookupShrinks(entries: seq<CachedCode>, ttl: Option<int>, key: Key, now: int)
    ensures |Get(entries, ttl, key, now).0| <= |entries|
  {
    FindFinds(entries, key);
    if Find(entries, key).Some? {
      RemoveShrinks(entries, key);
    }
  }

  predicate Holds(entries: seq<CachedCode>, key: Key) {
    exists i :: 0 <= i < |entries| && entries[i].key == key
  }

  /**
   A key leaves the cache in one of two ways: a lookup finds its entry expired,
   or a new key is stored while the cache is full and every key then held was
   used after it.
   */
  lemma {:induction false} LeavesOnlyIf(maxEntries: nat, ttl: Option<int>, uses: seq<Use>, use: Use, key: Key,
                                        other: Key)
    requires maxEntries >= 1
    requires Holds(ApplyAll(maxEntries, ttl, uses), key) && !Holds(ApplyAll(maxEntries, ttl, uses + [use]), key)
    ensures var entries, after := ApplyAll(maxEntries, ttl, uses), ApplyAll(maxEntries, ttl, uses + [use]);
            match use
            case Looked(k, now) =>
              k == key && exists e :: e in entries && e.key == key && ttl.Some? && now - e.createdAt > ttl.value
            case Stored(entry) =>
              && !Holds(entries, entry.key) && |entries| == maxEntries == |after|
              && (Holds(after, other) ==>
                    LastUse(maxEntries, ttl, uses + [use], key) < LastUse(maxEntries, ttl, uses + [use], other))
  {
    var entries, after := ApplyAll(maxEntries, ttl, uses), ApplyAll(maxEntries, ttl, uses + [use]);
    assert (uses + [use])[..|uses|] == uses;
    KeptInOrderOfUse(maxEntries, ttl, uses);
    match use
    case Looked(k, now) =>
      LookupKeeps(entries, ttl, k, now, key);
    case Stored(entry) =>
      StoreEvicts(entries, maxEntries, entry, k => LastUse(maxEntries, ttl, uses, k), key);
      if Holds(after, other) {
        assert other == entry.key || Holds(entries[1..], other);
      }
  }

  lemma {:induction false} LookupKeeps(entries: seq<CachedCode>, ttl: Option<int>, k: Key, now: int, key: Key)
    requires Holds(entries, key) && !Holds(Get(entries, ttl, k, now).0, key)
    ensures k == key && exists e :: e in entries && e.key == key && ttl.Some? && now - e.createdAt > ttl.value
  {
    FindFinds(entries, k);
    RemoveMembers(entries, k);
    var after := Get(entries, ttl, k, now).0;
    var i :| 0 <= i < |entries| && entries[i].key == key;
    forall e | e in after ensures e.key != key {
      HoldsMember(after, e);
    }
    assert entries[i] in entries && entries[i] !in after;
  }

  lemma {:induction false} HoldsMember(entries: seq<CachedCode>, e: CachedCode)
    requires e in entries
    ensures Holds(entries, e.key)
  {
  }

  lemma {:induction false} RemoveAbsent(entries: seq<CachedCode>, key: Key)
    requires !Holds(entries, key)
    ensures Remove(entries, key) == entries
    decreases |entries|
  {
    if entries != [] {
      forall i | 0 <= i < |entries[1..]| ensures entries[1..][i].key != key {
        assert entries[1..][i] == entries[i + 1];
      }
      RemoveAbsent(entries[1..], key);
    }
  }

  lemma {:induction false} StoreAgain(entries: seq<CachedCode>, maxEntries: nat, entry: CachedCode, key: Key)
    requires |entries| <= maxEntries && Holds(entries, entry.key) && Holds(entries, key)
    ensures Holds(Put(entries, maxEntries, entry), key)
  {
    FindFinds(entries, entry.key);
    RemoveMembers(entries, entry.key);
    RemoveShrinks(entries, entry.key);
    var after := Remove(entries, entry.key) + [entry];
    var i :| 0 <= i < |entries| && entries[i].key == key;
    assert key != entry.key ==> entries[i] in Remove(entries, entry.key);
    HoldsMember(after, if key == entry.key then entry else entries[i]);
  }

  lemma {:induction false} StoreNew(entries: seq<CachedCode>, maxEntries: nat, entry: CachedCode)
    requires 1 <= maxEntries && |entries| <= maxEntries && !Holds(entries, entry.key)
    ensures Put(entries, maxEntries, entry)
         == (if |entries| < maxEntries then entries else entries[1..]) + [entry]
  {
    RemoveAbsent(entries, entry.key);
  }

  /** Storing drops a held key only when it is the first entry of a full cache, and the stored key is new. */
  lemma {:induction false} StoreEvicts(entries: seq<CachedCode>, maxEntries: nat, entry: CachedCode, rank: Key -> int,
                                       key: Key)
    requires maxEntries >= 1 && |entries| <= maxEntries && Ascending(entries, rank)
    requires Holds(entries, key)
    ensures !Holds(Put(entries, maxEntries, entry), key) <==>
              !Holds(entries, entry.key) && |entries| == maxEntries && entries[0].key == key
    ensures !Holds(entries, entry.key) && |entries| == maxEntries ==>
              Put(entries, maxEntries, entry) == entries[1..] + [entry]
  {
    if Holds(entries, entry.key) {
      StoreAgain(entries, maxEntries, entry, key);
    } else {
      StoreNew(entries, maxEntries, entry);
      var kept := if |entries| < maxEntries then entries else entries[1..];
      var i :| 0 <= i < |entries| && entries[i].key == key;
      if |entries| < maxEntries || i > 0 {
        assert entries[i] in kept;
        HoldsMember(kept + [entry], entries[i]);
      }
    }
  }

  lemma {:induction false} ExpiredLeaves(entries: seq<CachedCode>, ttl: Option<int>, now: int, e: CachedCode)
    requires DistinctKeys(entries) && e in entries && Expired(e, ttl, now)
    ensures !Holds(Get(entries, ttl, e.key, now).0, e.key)
  {
    FindFinds(entries, e.key);
    RemoveMembers(entries, e.key);
    var after := Remove(entries, e.key);
    forall i | 0 <= i < |after| ensures after[i].key != e.key {
      assert after[i] in after;
    }
  }

  lemma {:induction false} FirstIsLeastUsed(entries: seq<CachedCode>, rank: Key -> int, key: Key)
    requires Ascending(entries, rank) && Holds(entries, key)
    ensures entries[0].key == key <==> forall k :: Holds(entries, k) ==> rank(key) <= rank(k)
  {
    assert Holds(entries, entries[0].key);
  }

  /**
   A held key leaves the cache if and only if a lookup finds it expired, or a
   new key is stored while the cache is full and no held key was last used
   before it.
   */
  lemma {:induction false} LeavesIff(maxEntries: nat, ttl: Option<int>, uses: seq<Use>, use: Use, key: Key)
    requires maxEntries >= 1 && Holds(ApplyAll(maxEntries, ttl, uses), key)
    ensures var entries := ApplyAll(maxEntries, ttl, uses);
            !Holds(ApplyAll(maxEntries, ttl, uses + [use]), key) <==>
              match use
              case Looked(k, now) =>
                k == key && exists e :: e in entries && e.key == key && ttl.Some? && now - e.createdAt > ttl.value
              case Stored(entry) =>
                && !Holds(entries, entry.key) && |entries| == maxEntries
                && forall k :: Holds(entries, k) ==>
                     LastUse(maxEntries, ttl, uses, key) <= LastUse(maxEntries, ttl, uses, k)
  {
    var entries := ApplyAll(maxEntries, ttl, uses);
    var rank := k => LastUse(maxEntries, ttl, uses, k);
    OneMoreUse(maxEntries, ttl, uses, use);
    KeptInOrderOfUse(maxEntries, ttl, uses);
    match use
    case Looked(k, now) =>
      if !Holds(Get(entries, ttl, k, now).0, key) {
        LookupKeeps(entries, ttl, k, now, key);
      } else if e :| e in entries && e.key == key && ttl.Some? && now - e.createdAt > ttl.value {
        ExpiredLeaves(entries, ttl, now, e);
      }
    case Stored(entry) =>
      StoreEvicts(entries, maxEntries, entry, rank, key);
      FirstIsLeastUsed(entries, rank, key);
  }

  /**
   When a new key is stored in a full cache, the held key stored longest ago is
   the one evicted if and only if no other held key was last used before it.
   */
  lemma {:induction false} EvictsOldestStoredIff(maxEntries: nat, ttl: Option<int>, uses: seq<Use>, entry: CachedCode,
                                                 oldest: Key)
    requires maxEntries >= 1 && |ApplyAll(maxEntries, ttl, uses)| == maxEntries
    requires !Holds(ApplyAll(maxEntries, ttl, uses), entry.key)
    requires Holds(ApplyAll(maxEntries, ttl, uses), oldest)
    requires forall k :: Holds(ApplyAll(maxEntries, ttl, uses), k) ==> LastStore(uses, oldest) <= LastStore(uses, k)
    ensures !Holds(ApplyAll(maxEntries, ttl, uses + [Stored(entry)]), oldest) <==>
              forall k :: Holds(ApplyAll(maxEntries, ttl, uses), k) ==>
                            LastUse(maxEntries, ttl, uses, oldest) <= LastUse(maxEntries, ttl, uses, k)
  {
    var entries := ApplyAll(maxEntries, ttl, uses);
    assert (uses + [Stored(entry)])[..|uses|] == uses;
    KeptInOrderOfUse(maxEntries, ttl, uses);
    StoreEvicts(entries, maxEntries, entry, k => LastUse(maxEntries, ttl, uses, k), oldest);
    assert Holds(entries, entries[0].key);
  }

  lemma {:induction false} FoundFirst(a: CachedCode, b: CachedCode)
    requires a.key != b.key
    ensures Find([a, b], a.key) == Some(a) && Remove([a, b], a.key) == [b]
  {
    assert [a, b][1..] == [b];
    RemoveAbsent([b], a.key);
  }

  lemma {:induction false} OneMoreUse(maxEntries: nat, ttl: Option<int>, uses: seq<Use>, use: Use)
    ensures ApplyAll(maxEntries, ttl, uses + [use]) == Apply(ApplyAll(maxEntries, ttl, uses), maxEntries, ttl, use)
  {
    assert (uses + [use])[..|uses|] == uses;
  }

  lemma {:induction false} AfterStores(a: CachedCode, b: CachedCode)
    requires a.key != b.key
    ensures ApplyAll(2, None, [Stored(a)] + [Stored(b)]) == [a, b]
  {
    OneMoreUse(2, None, [], Stored(a));
    assert [] + [Stored(a)] == [Stored(a)];
    StoreNew([], 2, a);
    assert ApplyAll(2, None, [Stored(a)]) == [] + [a] == [a];
    OneMoreUse(2, None, [Stored(a)], Stored(b));
    StoreNew([a], 2, b);
    assert [a] + [b] == [a, b];
  }

  lemma {:induction false} AfterHit(a: CachedCode, b: CachedCode, now: int)
    requires a.key != b.key
    ensures ApplyAll(2, None, [Stored(a)] + [Stored(b)] + [Looked(a.key, now)]) == [b, a.(hits := a.hits + 1)]
  {
    AfterStores(a, b);
    OneMoreUse(2, None, [Stored(a)] + [Stored(b)], Looked(a.key, now));
    FoundFirst(a, b);
    assert Get([a, b], None, a.key, now).0 == [b] + [a.(hits := a.hits + 1)];
  }

  lemma {:induction false} StoredInTurn(a: CachedCode, b: CachedCode, now: int)
    requires a.key != b.key
    ensures var uses := [Stored(a)] + [Stored(b)] + [Looked(a.key, now)];
            LastStore(uses, a.key) < LastStore(uses, b.key)
  {
    var one, two := [Stored(a)], [Stored(a)] + [Stored(b)];
    assert (two + [Looked(a.key, now)])[..2] == two && two[..1] == one;
    assert LastStore(one, a.key) == 0 && LastStore(two, b.key) == 1;
  }

  /** A hit changes what is evicted: of two entries the older stays, having been found since. */
  lemma {:induction false} HitChangesEviction(a: CachedCode, b: CachedCode, c: CachedCode, now: int)
    requires a.key != b.key && a.key != c.key && b.key != c.key
    ensures var uses := [Stored(a)] + [Stored(b)] + [Looked(a.key, now)];
            && LastStore(uses, a.key) < LastStore(uses, b.key)
            && Holds(ApplyAll(2, None, uses), a.key) && Holds(ApplyAll(2, None, uses), b.key)
            && Holds(ApplyAll(2, None, uses + [Stored(c)]), a.key)
            && !Holds(ApplyAll(2, None, uses + [Stored(c)]), b.key)
  {
    var a' := a.(hits := a.hits + 1);
    StoredInTurn(a, b, now);
    AfterHit(a, b, now);
    OneMoreUse(2, None, [Stored(a)] + [Stored(b)] + [Looked(a.key, now)], Stored(c));
    StoreNew([b, a'], 2, c);
    assert [b, a'][1..] + [c] == [a', c];
    HoldsMember([b, a'], a');
    HoldsMember([b, a'], b);
    HoldsMember([a', c], a');
  }

  // ----- Without a time to live

  function RemoveKey(keys: seq<Key>, key: Key): seq<Key> {
    if keys == [] then []
    else if keys[0] == key then RemoveKey(keys[1..], key)
    else [keys[0]] + RemoveKey(keys[1..], key)
  }

  /**
   All keys ever stored, ordered by when they were last stored or found,
   oldest first; a lookup that misses is no use.
   */
  function Recency(maxEntries: nat, uses: seq<Use>): seq<Key> {
    if uses == [] then []
    else
      var before, last := uses[..|uses| - 1], uses[|uses| - 1];
      var keys := Recency(maxEntries, before);
      match last
      case Stored(entry) => RemoveKey(keys, entry.key) + [entry.key]
      case Looked(key, _) =>
        if key in Newest(keys, maxEntries) then RemoveKey(keys, key) + [key] else keys
  }

  lemma {:induction false} KeysOfRemove(entries: seq<CachedCode>, key: Key)
    ensures Keys(Remove(entries, key)) == RemoveKey(Keys(entries), key)
    decreases |entries|
  {
    if entries != [] {
      var e, rest := entries[0], entries[1..];
      assert Keys(entries) == [e.key] + Keys(rest);
      KeysOfRemove(rest, key);
      if e.key != key {
        assert Keys([e] + Remove(rest, key)) == [e.key] + Keys(Remove(rest, key));
      }
    }
  }

  predicate NoRepeats(keys: seq<Key>) {
    keys == [] || (keys[0] !in keys[1..] && NoRepeats(keys[1..]))
  }

  lemma {:induction false} NoRepeatsAppend(keys: seq<Key>, key: Key)
    requires NoRepeats(keys) && key !in keys
    ensures NoRepeats(keys + [key])
    decreases |keys|
  {
    if keys != [] {
      NoRepeatsAppend(keys[1..], key);
      assert (keys + [key])[1..] == keys[1..] + [key];
    }
  }

  lemma {:induction false} NoRepeatsSuffix(keys: seq<Key>, n: nat)
    requires NoRepeats(keys) && n <= |keys|
    ensures NoRepeats(keys[n..])
    decreases n
  {
    if n > 0 {
      NoRepeatsSuffix(keys[1..], n - 1);
      assert keys[1..][n - 1..] == keys[n..];
    }
  }

  lemma {:induction false} RemoveKeyMembers(keys: seq<Key>, key: Key)
    requires NoRepeats(keys)
    ensures forall k :: k in RemoveKey(keys, key) <==> k in keys && k != key
    ensures NoRepeats(RemoveKey(keys, key))
    ensures |RemoveKey(keys, key)| == |keys| - if key in keys then 1 else 0
    decreases |keys|
  {
    if keys != [] {
      assert keys == [keys[0]] + keys[1..];
      RemoveKeyMembers(keys[1..], key);
    }
  }

  lemma {:induction false} RemoveAbsentKey(keys: seq<Key>, key: Key)
    requires key !in keys
    ensures RemoveKey(keys, key) == keys
    decreases |keys|
  {
    if keys != [] {
      RemoveAbsentKey(keys[1..], key);
    }
  }

  lemma {:induction false} RemoveKeyConcat(a: seq<Key>, b: seq<Key>, key: Key)
    ensures RemoveKey(a + b, key) == RemoveKey(a, key) + RemoveKey(b, key)
    decreases |a|
  {
    if a == [] {
      assert a + b == b;
    } else {
      assert (a + b)[1..] == a[1..] + b;
      RemoveKeyConcat(a[1..], b, key);
    }
  }

  lemma {:induction false} NewestOfSuffix(a: seq<Key>, b: seq<Key>, n: nat)
    requires |b| >= n
    ensures Newest(a + b, n) == Newest(b, n)
  {
    assert Newest(a + b, n) == (a + b)[|a| + |b| - n..];
  }

  /** Using a key among the newest, or a new one, gives the newest after the use. */
  lemma {:induction false} NewestAfterUse(keys: seq<Key>, n: nat, key: Key)
    requires NoRepeats(keys) && n >= 1
    ensures NoRepeats(RemoveKey(keys, key) + [key])
    ensures Newest(RemoveKey(Newest(keys, n), key) + [key], n) == Newest(RemoveKey(keys, key) + [key], n)
    ensures key in Newest(keys, n) ==> |RemoveKey(Newest(keys, n), key) + [key]| <= n
  {
    var kept := Newest(keys, n);
    RemoveKeyMembers(keys, key);
    NoRepeatsAppend(RemoveKey(keys, key), key);
    NoRepeatsSuffix(keys, |keys| - |kept|);
    RemoveKeyMembers(kept, key);
    if |keys| > n {
      var front, used := keys[..|keys| - n], RemoveKey(kept, key) + [key];
      assert keys == front + kept;
      RemoveKeyConcat(front, kept, key);
      assert RemoveKey(keys, key) + [key] == RemoveKey(front, key) + used;
      NewestOfSuffix(RemoveKey(front, key), used, n);
    }
  }

  /**
   Without a time to live, the cache holds exactly the `maxEntries` most
   recently used keys, in the order of their last use.  A hit counts as a use,
   so a frequently found entry outlives later insertions.
   */
  lemma {:induction false} HoldsMostRecentlyUsed(maxEntries: nat, uses: seq<Use>)
    requires maxEntries >= 1
    ensures NoRepeats(Recency(maxEntries, uses))
    ensures Keys(ApplyAll(maxEntries, None, uses)) == Newest(Recency(maxEntries, uses), maxEntries)
    decreases |uses|
  {
    if uses != [] {
      var before, last := uses[..|uses| - 1], uses[|uses| - 1];
      HoldsMostRecentlyUsed(maxEntries, before);
      var entries, keys := ApplyAll(maxEntries, None, before), Recency(maxEntries, before);
      var key := if last.Stored? then last.entry.key else last.key;
      NewestAfterUse(keys, maxEntries, key);
      if last.Stored? {
        KeysOfPut(entries, maxEntries, last.entry);
      } else {
        KeysOfLookup(entries, key, last.now);
      }
    }
  }

  lemma {:induction false} KeysOfFreshen(entries: seq<CachedCode>, entry: CachedCode)
    ensures Keys(Freshen(entries, entry)) == RemoveKey(Keys(entries), entry.key) + [entry.key]
  {
    KeysOfRemove(entries, entry.key);
  }

  lemma {:induction false} KeysOfPut(entries: seq<CachedCode>, maxEntries: nat, entry: CachedCode)
    ensures Keys(Put(entries, maxEntries, entry))
         == Newest(RemoveKey(Keys(entries), entry.key) + [entry.key], maxEntries)
  {
    KeysOfFreshen(entries, entry);
  }

  lemma {:induction false} KeysOfLookup(entries: seq<CachedCode>, key: Key, now: int)
    ensures Keys(Get(entries, None, key, now).0) ==
            if key in Keys(entries) then RemoveKey(Keys(entries), key) + [key] else Keys(entries)
  {
    FindFinds(entries, key);
    if key in Keys(entries) {
      var i :| 0 <= i < |entries| && Keys(entries)[i] == key;
      assert entries[i].key == key;
      var found := Find(entries, key).value;
      KeysOfFreshen(entries, found.(hits := found.hits + 1));
    } else {
      assert forall i :: 0 <= i < |entries| ==> Keys(entries)[i] == entries[i].key;
    }
  }
}
