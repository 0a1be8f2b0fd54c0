/** The in-memory approved-code cache: an ordered dictionary, oldest entry first. */
module CodeCache {
  import opened Wrappers

  /** The digest that stands for endpoint, intent, tools, policies and parameters. */
  datatype Key = Key(digest: nat)

  datatype Code = Code(source: string, reasoning: Option<string>, confidence: real)

  datatype CachedCode = CachedCode(key: Key, code: Code, createdAt: int, hits: nat)

  // ----- Ordered dictionaries as sequences

  function Keys(entries: seq<CachedCode>): (r: seq<Key>)
    ensures |r| == |entries| && forall i :: 0 <= i < |entries| ==> r[i] == entries[i].key
  {
    seq(|entries|, i requires 0 <= i < |entries| => entries[i].key)
  }

  predicate DistinctKeys(entries: seq<CachedCode>) {
    forall i, j :: 0 <= i < j < |entries| ==> entries[i].key != entries[j].key
  }

  function Find(entries: seq<CachedCode>, key: Key): Option<CachedCode> {
    if entries == [] then None
    else if entries[0].key == key then Some(entries[0])
    else Find(entries[1..], key)
  }

  function Remove(entries: seq<CachedCode>, key: Key): seq<CachedCode> {
    if entries == [] then []
    else if entries[0].key == key then Remove(entries[1..], key)
    else [entries[0]] + Remove(entries[1..], key)
  }

  lemma {:induction false} RemoveMembers(entries: seq<CachedCode>, key: Key)
    ensures var r := Remove(entries, key);
            && (forall e :: e in r <==> e in entries && e.key != key)
            && (DistinctKeys(entries) ==> DistinctKeys(r))
            && |r| <= |entries|
    decreases |entries|
  {
    if entries != [] {
      assert entries == [entries[0]] + entries[1..];
      RemoveMembers(entries[1..], key);
    }
  }

  /** Setting a key and moving it to the recent end. */
  function Freshen(entries: seq<CachedCode>, entry: CachedCode): seq<CachedCode> {
    Remove(entries, entry.key) + [entry]
  }

  /** Dropping the oldest entries until at most `n` are left. */
  function Newest<T>(s: seq<T>, n: nat): (r: seq<T>) {
    if |s| <= n then s else s[|s| - n..]
  }

  predicate Expired(entry: CachedCode, ttl: Option<int>, now: int) {
    ttl.Some? && now - entry.createdAt > ttl.value
  }

  lemma {:induction false} FindFinds(entries: seq<CachedCode>, key: Key)
    ensures Find(entries, key).Some? <==> exists i :: 0 <= i < |entries| && entries[i].key == key
    ensures Find(entries, key).Some? ==> Find(entries, key).value in entries && Find(entries, key).value.key == key
    ensures DistinctKeys(entries) ==> forall e :: e in entries && e.key == key ==> Find(entries, key) == Some(e)
    decreases |entries|
  {
    if entries != [] {
      FindFinds(entries[1..], key);
      assert forall i :: 0 < i < |entries| ==> entries[i] == entries[1..][i - 1];
    }
  }

  /** The lookup: a stale entry is dropped and missed, a live one is counted and becomes the most recent. */
  function Get(entries: seq<CachedCode>, ttl: Option<int>, key: Key, now: int): (seq<CachedCode>, Option<CachedCode>) {
    match Find(entries, key)
    case None => (entries, None)
    case Some(entry) =>
      if Expired(entry, ttl, now) then (Remove(entries, key), None)
      else
        var bumped := entry.(hits := entry.hits + 1);
        (Freshen(entries, bumped), Some(bumped))
  }

  function Put(entries: seq<CachedCode>, maxEntries: nat, entry: CachedCode): seq<CachedCode> {
    Newest(Freshen(entries, entry), maxEntries)
  }

  class InMemoryCodeCache {
    var entries: seq<CachedCode>
    const maxEntries: nat
    const ttl: Option<int>

    ghost predicate Valid()
      reads this
    {
      DistinctKeys(entries) && 1 <= maxEntries && |entries| <= maxEntries
    }

    constructor (limit: int, ttlSeconds: Option<int>)
      ensures Valid() && entries == [] && ttl == ttlSeconds
      ensures maxEntries == if limit < 1 then 1 else limit
    {
      entries := [];
      maxEntries := if limit < 1 then 1 else limit;
      ttl := ttlSeconds;
    }

    method Lookup(key: Key, now: int) returns (found: Option<CachedCode>)
      requires Valid()
      modifies this`entries
      ensures Valid()
      ensures (entries, found) == Get(old(entries), ttl, key, now)
    {
      var entry := Find(entries, key);
      if entry.None? {
        return None;
      }
      FindFinds(entries, key);
      RemoveMembers(entries, key);
      if ttl.Some? {
        var age := now - entry.value.createdAt;
        if age > ttl.value {
          entries := Remove(entries, key);
          return None;
        }
      }
      var bumped := CachedCode(entry.value.key, entry.value.code, entry.value.createdAt, entry.value.hits + 1);
      RemoveShrinks(entries, key);
      entries := Remove(entries, key) + [bumped];
      found := Some(bumped);
    }

    method Store(entry: CachedCode)
      requires Valid()
      modifies this`entries
      ensures Valid()
      ensures entries == Put(old(entries), maxEntries, entry)
    {
      RemoveMembers(entries, entry.key);
      entries := Remove(entries, entry.key) + [entry];
      ghost var all := entries;
      while |entries| > maxEntries
        invariant DistinctKeys(entries)
        invariant Newest(entries, maxEntries) == Newest(all, maxEntries)
        decreases |entries|
      {
        entries := entries[1..];
      }
    }
  }

  lemma {:induction false} RemoveShrinks(entries: seq<CachedCode>, key: Key)
    requires Find(entries, key).Some?
    ensures |Remove(entries, key)| < |entries|
    decreases |entries|
  {
    if entries[0].key == key {
      RemoveMembers(entries[1..], key);
    } else {
      RemoveShrinks(entries[1..], key);
    }
  }

  /**
   A lookup finds something exactly when the key has an entry that has not
   expired; what it finds is that entry with one more hit, now the most recent
   one; every other entry stays as it was, and an expired one is gone.
   */
  lemma {:induction false} LookupAnswers(entries: seq<CachedCode>, ttl: Option<int>, key: Key, now: int,
                                         other: CachedCode)
    requires DistinctKeys(entries)
    ensures var (after, found) := Get(entries, ttl, key, now);
            && (found.Some? <==>
                  exists e :: e in entries && e.key == key && (ttl.None? || now - e.createdAt <= ttl.value))
            && (found.Some? ==>
                  && after != [] && after[|after| - 1] == found.value
                  && found.value.hits >= 1 && found.value.(hits := found.value.hits - 1) in entries)
            && (other.key != key ==> (other in after <==> other in entries))
            && (found.None? && other.key == key ==> other !in after)
  {
    FindFinds(entries, key);
    RemoveMembers(entries, key);
    var found := Find(entries, key);
    if found.Some? {
      assert found.value in entries;
    }
    if other in entries && other.key == key {
      var i :| 0 <= i < |entries| && entries[i] == other;
    }
  }

  lemma {:induction false} NewestAnswers(all: seq<CachedCode>, n: nat, other: CachedCode)
    requires all != [] && n >= 1
    ensures var kept := Newest(all, n);
            && 1 <= |kept| <= n && kept[|kept| - 1] == all[|all| - 1]
            && (other in kept ==> other in all)
            && (|all| <= n ==> kept == all)
  {
  }

  lemma {:induction false} FreshenAnswers(entries: seq<CachedCode>, entry: CachedCode, other: CachedCode)
    ensures var all := Freshen(entries, entry);
            && 1 <= |all| <= |entries| + 1 && all[|all| - 1] == entry
            && (other in all <==> other == entry || (other in entries && other.key != entry.key))
  {
    RemoveMembers(entries, entry.key);
    var kept := Remove(entries, entry.key);
    if other in kept {
      assert other in kept + [entry];
    }
    assert (kept + [entry])[|kept|] == entry;
  }

  /**
   After a store the entry is the most recent one, every other entry is one
   that was there under another key, as it was, and all of those are still
   there if the limit allows.
   */
  lemma {:induction false} StoreAnswers(entries: seq<CachedCode>, maxEntries: nat, entry: CachedCode, other: CachedCode)
    requires 1 <= maxEntries
    ensures var after := Put(entries, maxEntries, entry);
            && 1 <= |after| <= maxEntries && after[|after| - 1] == entry
            && (other != entry && other in after ==> other in entries && other.key != entry.key)
            && (other in entries && other.key != entry.key && |entries| < maxEntries ==> other in after)
  {
    FreshenAnswers(entries, entry, other);
    NewestAnswers(Freshen(entries, entry), maxEntries, other);
  }
}
