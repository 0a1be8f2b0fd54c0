/** The structural diff that replay shows, and the status it derives from it. */
module Diff {
  import opened Text

  /** A dictionary key, compared as a whole. */
  datatype Key = Key(text: string)

  datatype Json =
    | Null
    | Bool(flag: bool)
    | Num(number: real)
    | Str(text: string)
    | Arr(items: seq<Json>)
    | Obj(fields: map<Key, Json>)

  datatype Change = Change(before: Json, after: Json)

  datatype ItemChange = ItemChange(index: nat, change: Change)

  /** The dictionary `_diff_values` returns; an absent key is an empty part. */
  datatype Report =
    | Same
    | Fields(added: seq<Key>, removed: seq<Key>, changed: map<Key, Change>)
    | Items(lengthBefore: nat, lengthAfter: nat, changes: seq<ItemChange>)
    | Values(change: Change)

  const MAX_REPORTED: nat := 5

  // ----- Sorted listings of keys

  predicate KeyLess(a: Key, b: Key) {
    TextLess(a.text, b.text)
  }

  predicate Ascending(keys: seq<Key>) {
    forall i, j :: 0 <= i < j < |keys| ==> KeyLess(keys[i], keys[j])
  }

  /** Python's `sorted` of distinct keys. */
  ghost predicate Lists(keys: seq<Key>, members: set<Key>) {
    Ascending(keys) && forall k :: k in keys <==> k in members
  }

  function InsertKey(keys: seq<Key>, k: Key): seq<Key> {
    if keys == [] then [k]
    else if KeyLess(keys[0], k) then [keys[0]] + InsertKey(keys[1..], k)
    else [k] + keys
  }

  lemma {:induction false} InsertKeyMembers(keys: seq<Key>, k: Key)
    ensures forall x :: x in InsertKey(keys, k) <==> x in keys || x == k
    decreases |keys|
  {
    if keys != [] {
      assert keys == [keys[0]] + keys[1..];
      if KeyLess(keys[0], k) {
        InsertKeyMembers(keys[1..], k);
      }
    }
  }

  lemma {:induction false} InsertKeyAscends(keys: seq<Key>, k: Key)
    requires Ascending(keys) && k !in keys
    ensures Ascending(InsertKey(keys, k))
    decreases |keys|
  {
    if keys == [] {
    } else if KeyLess(keys[0], k) {
      var rest := InsertKey(keys[1..], k);
      InsertKeyAscends(keys[1..], k);
      InsertKeyMembers(keys[1..], k);
      forall j | 0 <= j < |rest| ensures KeyLess(keys[0], rest[j]) {
        assert rest[j] in rest;
        if rest[j] != k {
          var i :| 0 <= i < |keys[1..]| && keys[1..][i] == rest[j];
          assert keys[i + 1] == rest[j];
        }
      }
    } else {
      KeyTotal(k, keys[0]);
      forall j | 0 <= j < |keys| ensures KeyLess(k, keys[j]) {
        if j > 0 {
          TextTransitive(k.text, keys[0].text, keys[j].text);
        }
      }
    }
  }

  lemma {:induction false} KeyTotal(a: Key, b: Key)
    requires a != b
    ensures KeyLess(a, b) || KeyLess(b, a)
  {
    if !KeyLess(a, b) && !KeyLess(b, a) {
      TextTotal(a.text, b.text);
    }
  }

  lemma {:induction false} ListingUnique(a: seq<Key>, b: seq<Key>)
    requires Ascending(a) && Ascending(b) && forall k :: k in a <==> k in b
    ensures a == b
    decreases |a|
  {
    if a == [] {
      SomethingIn(b);
    } else {
      assert a[0] in b && b != [] && b[0] in a;
      LeastFirst(a, b[0]);
      LeastFirst(b, a[0]);
      if a[0] != b[0] {
        TextTransitive(a[0].text, b[0].text, a[0].text);
        TextIrreflexive(a[0].text);
      }
      forall k ensures k in a[1..] <==> k in b[1..] {
        TailMembers(a, k);
        TailMembers(b, k);
      }
      ListingUnique(a[1..], b[1..]);
      assert a == [a[0]] + a[1..] && b == [b[0]] + b[1..];
    }
  }

  lemma {:induction false} SomethingIn(keys: seq<Key>)
    ensures keys != [] ==> exists k :: k in keys
  {
    if keys != [] {
      assert keys[0] in keys;
    }
  }

  lemma {:induction false} LeastFirst(keys: seq<Key>, k: Key)
    requires Ascending(keys) && k in keys
    ensures keys[0] == k || KeyLess(keys[0], k)
  {
    var i :| 0 <= i < |keys| && keys[i] == k;
  }

  lemma {:induction false} TailMembers(keys: seq<Key>, k: Key)
    requires Ascending(keys) && keys != []
    ensures k in keys[1..] <==> k in keys && k != keys[0]
  {
    TextIrreflexive(keys[0].text);
    if k in keys && k != keys[0] {
      var i :| 0 <= i < |keys| && keys[i] == k;
      assert keys[1..][i - 1] == k;
    }
  }

  ghost function Listing(members: set<Key>): (keys: seq<Key>)
    ensures Lists(keys, members)
    decreases |members|
  {
    if members == {} then []
    else
      var k :| k in members;
      var rest := Listing(members - {k});
      InsertKeyMembers(rest, k);
      InsertKeyAscends(rest, k);
      InsertKey(rest, k)
  }

  method SortKeys(members: set<Key>) returns (keys: seq<Key>)
    ensures keys == Listing(members)
  {
    keys := [];
    var left := members;
    while left != {}
      invariant left <= members && Lists(keys, members - left)
      decreases |left|
    {
      var k :| k in left;
      InsertKeyMembers(keys, k);
      InsertKeyAscends(keys, k);
      keys := InsertKey(keys, k);
      left := left - {k};
    }
    ListingUnique(keys, Listing(members));
  }

  // ----- Differing positions

  function MinLength(a: seq<Json>, b: seq<Json>): nat {
    if |a| <= |b| then |a| else |b|
  }

  /** Every differing index below `n`, in order, with what was and is there. */
  function Differences(a: seq<Json>, b: seq<Json>, n: nat): (r: seq<ItemChange>)
    requires n <= MinLength(a, b)
    ensures forall i :: 0 <= i < |r| ==> r[i].index < n
  {
    if n == 0 then []
    else Differences(a, b, n - 1) + if a[n - 1] != b[n - 1] then [ItemChange(n - 1, Change(a[n - 1], b[n - 1]))] else []
  }

  lemma {:induction false} DifferencesNext(a: seq<Json>, b: seq<Json>, n: nat)
    requires n < MinLength(a, b)
    ensures a[n] != b[n] ==>
              Differences(a, b, n + 1) == Differences(a, b, n) + [ItemChange(n, Change(a[n], b[n]))]
    ensures a[n] == b[n] ==> Differences(a, b, n + 1) == Differences(a, b, n)
  {
  }

  function Take<T>(s: seq<T>, n: nat): seq<T> {
    if |s| <= n then s else s[..n]
  }

  function ChangedFields(a: map<Key, Json>, b: map<Key, Json>): map<Key, Change> {
    map k | k in a && k in b && a[k] != b[k] :: Change(a[k], b[k])
  }

  ghost function DiffOf(historical: Json, live: Json): Report {
    if historical == live then Same
    else if historical.Obj? && live.Obj? then
      Fields(Listing(live.fields.Keys - historical.fields.Keys),
             Listing(historical.fields.Keys - live.fields.Keys),
             ChangedFields(historical.fields, live.fields))
    else if historical.Arr? && live.Arr? then
      Items(|historical.items|, |live.items|,
            Take(Differences(historical.items, live.items, MinLength(historical.items, live.items)), MAX_REPORTED))
    else Values(Change(historical, live))
  }

  method DiffValues(historical: Json, live: Json) returns (r: Report)
    ensures r == DiffOf(historical, live)
  {
    if historical == live {
      return Same;
    }
    if historical.Obj? && live.Obj? {
      var added := SortKeys(live.fields.Keys - historical.fields.Keys);
      var removed := SortKeys(historical.fields.Keys - live.fields.Keys);
      var changed := CollectChanged(historical.fields, live.fields);
      return Fields(added, removed, changed);
    }
    if historical.Arr? && live.Arr? {
      var changes := CollectChanges(historical.items, live.items);
      return Items(|historical.items|, |live.items|, changes);
    }
    return Values(Change(historical, live));
  }

  method CollectChanged(a: map<Key, Json>, b: map<Key, Json>) returns (changed: map<Key, Change>)
    ensures changed == ChangedFields(a, b)
  {
    changed := map[];
    var left := a.Keys * b.Keys;
    while left != {}
      invariant left <= a.Keys * b.Keys
      invariant changed == map k | k in a && k in b && k !in left && a[k] != b[k] :: Change(a[k], b[k])
      decreases |left|
    {
      var key :| key in left;
      if a[key] != b[key] {
        changed := changed[key := Change(a[key], b[key])];
      }
      left := left - {key};
    }
  }

  /** Stops at the fifth difference. */
  method CollectChanges(a: seq<Json>, b: seq<Json>) returns (changes: seq<ItemChange>)
    ensures changes == Take(Differences(a, b, MinLength(a, b)), MAX_REPORTED)
  {
    changes := [];
    for idx := 0 to MinLength(a, b)
      invariant changes == Differences(a, b, idx) && |changes| < MAX_REPORTED
    {
      if a[idx] != b[idx] {
        changes := changes + [ItemChange(idx, Change(a[idx], b[idx]))];
        if |changes| >= MAX_REPORTED {
          DifferencesGrow(a, b, idx + 1, MinLength(a, b));
          break;
        }
      }
    }
  }

  lemma {:induction false} DifferencesGrow(a: seq<Json>, b: seq<Json>, m: nat, n: nat)
    requires m <= n <= MinLength(a, b)
    ensures Differences(a, b, m) <= Differences(a, b, n)
    decreases n
  {
    if m < n {
      DifferencesGrow(a, b, m, n - 1);
    }
  }

  // ----- What a report says

  /** A report with no key at all, which Python takes for false. */
  predicate IsEmpty(r: Report) {
    r.Same? || (r.Fields? && r.added == [] && r.removed == [] && r.changed == map[])
  }

  /** The report is empty exactly when the two values are equal. */
  lemma {:induction false} EmptyIffEqual(a: Json, b: Json)
    ensures IsEmpty(DiffOf(a, b)) <==> a == b
  {
    if a.Obj? && b.Obj? && IsEmpty(DiffOf(a, b)) && a != b {
      UnchangedFieldsEqual(a.fields, b.fields);
    }
  }

  lemma {:induction false} UnchangedFieldsEqual(a: map<Key, Json>, b: map<Key, Json>)
    requires Listing(b.Keys - a.Keys) == [] && Listing(a.Keys - b.Keys) == [] && ChangedFields(a, b) == map[]
    ensures a == b
  {
    forall k ensures k in a <==> k in b {
      assert k !in Listing(b.Keys - a.Keys) && k !in Listing(a.Keys - b.Keys);
    }
    forall k | k in a ensures a[k] == b[k] {
      assert k !in ChangedFields(a, b);
    }
  }

  function Swap(c: Change): Change {
    Change(c.after, c.before)
  }

  function SwapItems(changes: seq<ItemChange>): (r: seq<ItemChange>)
    ensures |r| == |changes|
    ensures forall i :: 0 <= i < |r| ==> r[i] == ItemChange(changes[i].index, Swap(changes[i].change))
  {
    seq(|changes|, i requires 0 <= i < |changes| => ItemChange(changes[i].index, Swap(changes[i].change)))
  }

  function Mirror(r: Report): Report {
    match r
    case Same => Same
    case Fields(added, removed, changed) => Fields(removed, added, map k | k in changed :: Swap(changed[k]))
    case Items(before, after, changes) => Items(after, before, SwapItems(changes))
    case Values(c) => Values(Swap(c))
  }

  lemma {:induction false} DifferencesMirror(a: seq<Json>, b: seq<Json>, n: nat)
    requires n <= MinLength(a, b)
    ensures Differences(b, a, n) == SwapItems(Differences(a, b, n))
    decreases n
  {
    if n > 0 {
      DifferencesMirror(a, b, n - 1);
    }
  }

  /** Comparing the other way round gives the mirrored report. */
  lemma {:induction false} DiffMirrors(a: Json, b: Json)
    ensures DiffOf(b, a) == Mirror(DiffOf(a, b))
  {
    if a != b && a.Arr? && b.Arr? {
      DifferencesMirror(a.items, b.items, MinLength(a.items, b.items));
    } else if a != b && a.Obj? && b.Obj? {
      assert ChangedFields(b.fields, a.fields)
          == map k | k in ChangedFields(a.fields, b.fields) :: Swap(ChangedFields(a.fields, b.fields)[k]);
    }
  }

  // ----- Rebuilding the live value

  function Patch(items: seq<Json>, changes: seq<ItemChange>): (r: seq<Json>)
    requires forall i :: 0 <= i < |changes| ==> changes[i].index < |items|
    ensures |r| == |items|
  {
    if changes == [] then items
    else
      var last := changes[|changes| - 1];
      Patch(items, changes[..|changes| - 1])[last.index := last.change.after]
  }

  /** Two lists agree on their first n items. */
  predicate AgreeUpTo(a: seq<Json>, b: seq<Json>, n: nat)
    requires n <= MinLength(a, b)
  {
    forall i :: 0 <= i < n ==> a[i] == b[i]
  }

  /** `patched` is b up to n, and still a from there on. */
  predicate PatchedUpTo(patched: seq<Json>, a: seq<Json>, b: seq<Json>, n: nat)
    requires n <= MinLength(a, b)
  {
    && |patched| == |a|
    && AgreeUpTo(patched, b, n)
    && forall i :: n <= i < |a| ==> patched[i] == a[i]
  }

  lemma {:induction false} PatchOneMore(items: seq<Json>, changes: seq<ItemChange>, last: ItemChange)
    requires forall i :: 0 <= i < |changes| ==> changes[i].index < |items|
    requires last.index < |items|
    ensures Patch(items, changes + [last]) == Patch(items, changes)[last.index := last.change.after]
  {
    assert (changes + [last])[..|changes|] == changes;
  }

  lemma {:induction false} PatchedNext(patched: seq<Json>, a: seq<Json>, b: seq<Json>, n: nat)
    requires n < MinLength(a, b) && PatchedUpTo(patched, a, b, n)
    ensures PatchedUpTo(patched[n := b[n]], a, b, n + 1)
    ensures a[n] == b[n] ==> PatchedUpTo(patched, a, b, n + 1)
  {
  }

  lemma {:induction false} PatchStep(a: seq<Json>, b: seq<Json>, n: nat, before: seq<ItemChange>, all: seq<ItemChange>)
    requires n < MinLength(a, b) && (forall i :: 0 <= i < |before| ==> before[i].index < |a|)
    requires PatchedUpTo(Patch(a, before), a, b, n)
    requires all == if a[n] != b[n] then before + [ItemChange(n, Change(a[n], b[n]))] else before
    ensures (forall i :: 0 <= i < |all| ==> all[i].index < |a|) && PatchedUpTo(Patch(a, all), a, b, n + 1)
  {
    PatchedNext(Patch(a, before), a, b, n);
    if a[n] != b[n] {
      PatchOneMore(a, before, ItemChange(n, Change(a[n], b[n])));
    }
  }

  lemma {:induction false} NothingPatched(a: seq<Json>, b: seq<Json>)
    ensures PatchedUpTo(Patch(a, []), a, b, 0)
  {
  }

  lemma {:induction false} PatchAgrees(a: seq<Json>, b: seq<Json>, n: nat)
    requires n <= MinLength(a, b)
    ensures PatchedUpTo(Patch(a, Differences(a, b, n)), a, b, n)
    decreases n
  {
    if n == 0 {
      NothingPatched(a, b);
    } else {
      PatchAgrees(a, b, n - 1);
      PatchStep(a, b, n - 1, Differences(a, b, n - 1), Differences(a, b, n));
    }
  }

  /** The changes are those at the differing indices below n, in ascending order, with both values. */
  predicate AreDifferences(changes: seq<ItemChange>, a: seq<Json>, b: seq<Json>, n: nat)
    requires n <= MinLength(a, b)
  {
    && (forall i :: 0 <= i < |changes| ==>
          && changes[i].index < n
          && a[changes[i].index] != b[changes[i].index]
          && changes[i].change == Change(a[changes[i].index], b[changes[i].index]))
    && (forall i, j :: 0 <= i < j < |changes| ==> changes[i].index < changes[j].index)
    && (forall k :: 0 <= k < n && a[k] != b[k] ==> ReportsIndex(changes, k))
  }

  predicate ReportsIndex(changes: seq<ItemChange>, k: nat) {
    exists i :: 0 <= i < |changes| && changes[i].index == k
  }

  lemma {:induction false} ReportsIndexStays(changes: seq<ItemChange>, last: ItemChange, k: nat)
    requires ReportsIndex(changes, k) || last.index == k
    ensures ReportsIndex(changes + [last], k)
  {
    if i :| 0 <= i < |changes| && changes[i].index == k {
      assert (changes + [last])[i].index == k;
    } else {
      assert (changes + [last])[|changes|].index == k;
    }
  }

  lemma {:induction false} DifferencesStep(before: seq<ItemChange>, all: seq<ItemChange>, a: seq<Json>, b: seq<Json>,
                                           n: nat, next: nat)
    requires next == n + 1 <= MinLength(a, b) && AreDifferences(before, a, b, n)
    requires all == if a[n] != b[n] then before + [ItemChange(n, Change(a[n], b[n]))] else before
    ensures AreDifferences(all, a, b, next)
  {
    forall k | 0 <= k < next && a[k] != b[k] ensures ReportsIndex(all, k) {
      if a[n] != b[n] {
        ReportsIndexStays(before, ItemChange(n, Change(a[n], b[n])), k);
      }
    }
  }

  lemma {:induction false} NoDifferences(a: seq<Json>, b: seq<Json>)
    ensures AreDifferences([], a, b, 0)
  {
  }

  lemma {:induction false} DifferencesAre(a: seq<Json>, b: seq<Json>, n: nat)
    requires n <= MinLength(a, b)
    ensures AreDifferences(Differences(a, b, n), a, b, n)
    decreases n
  {
    if n == 0 {
      NoDifferences(a, b);
    } else {
      DifferencesAre(a, b, n - 1);
      DifferencesStep(Differences(a, b, n - 1), Differences(a, b, n), a, b, n - 1, n);
    }
  }

  /** How far a list report reaches: to the end of the shorter list, or to the fifth change. */
  function Reach(changes: seq<ItemChange>, a: seq<Json>, b: seq<Json>): nat {
    if |changes| < 5 then MinLength(a, b) else changes[4].index + 1
  }

  lemma {:induction false} FirstFive(a: seq<Json>, b: seq<Json>, n: nat)
    requires n <= MinLength(a, b) && |Differences(a, b, n)| >= 5
    ensures Differences(a, b, Differences(a, b, n)[4].index + 1) == Differences(a, b, n)[..5]
    decreases n
  {
    var all, before := Differences(a, b, n), Differences(a, b, n - 1);
    if |before| >= 5 {
      FirstFive(a, b, n - 1);
      assert all[..5] == before[..5];
    }
  }

  lemma {:induction false} ReportedDifferences(a: seq<Json>, b: seq<Json>)
    ensures var changes := Take(Differences(a, b, MinLength(a, b)), MAX_REPORTED);
            && |changes| <= MAX_REPORTED && Reach(changes, a, b) <= MinLength(a, b)
            && changes == Differences(a, b, Reach(changes, a, b))
  {
    if |Differences(a, b, MinLength(a, b))| >= MAX_REPORTED {
      FirstFive(a, b, MinLength(a, b));
    }
  }

  /**
   A list report lists, in ascending order and with both values, exactly the
   differing indices as far as it reaches, which is all the way if it lists
   fewer than five; so patching the historical list gives the live one up to there.
   */
  lemma {:induction false} ListReportRebuilds(a: seq<Json>, b: seq<Json>)
    requires a != b
    ensures var r := DiffOf(Arr(a), Arr(b));
            && r.Items? && r.lengthBefore == |a| && r.lengthAfter == |b| && |r.changes| <= 5
            && Reach(r.changes, a, b) <= MinLength(a, b)
            && AreDifferences(r.changes, a, b, Reach(r.changes, a, b))
            && AgreeUpTo(Patch(a, r.changes), b, Reach(r.changes, a, b))
  {
    var changes := Take(Differences(a, b, MinLength(a, b)), MAX_REPORTED);
    assert DiffOf(Arr(a), Arr(b)).changes == changes;
    ReportedDifferences(a, b);
    DifferencesAre(a, b, Reach(changes, a, b));
    PatchAgrees(a, b, Reach(changes, a, b));
  }

  /**
   A dictionary report lists in ascending order exactly the keys that are new
   and those that are gone, and gives the live value of exactly the common
   keys whose value changed; so it decides all of the live dictionary but the
   values of new keys.
   */
  lemma {:induction false} FieldReportRebuilds(a: map<Key, Json>, b: map<Key, Json>, k: Key)
    requires a != b
    ensures var r := DiffOf(Obj(a), Obj(b));
            && r.Fields? && Ascending(r.added) && Ascending(r.removed)
            && (k in r.added <==> k in b && k !in a)
            && (k in r.removed <==> k in a && k !in b)
            && (k in r.changed <==> k in a && k in b && a[k] != b[k])
            && (k in b <==> (k in a && k !in r.removed) || k in r.added)
            && (k in a && k in b ==> b[k] == if k in r.changed then r.changed[k].after else a[k])
            && (k in r.changed ==> r.changed[k].before == a[k])
  {
    var r := DiffOf(Obj(a), Obj(b));
    assert k in r.added <==> k in b.Keys - a.Keys;
    assert k in r.removed <==> k in a.Keys - b.Keys;
  }

  /** Values of different kinds, and scalars, are reported whole, the historical one first. */
  lemma {:induction false} ValueReport(a: Json, b: Json)
    ensures DiffOf(a, b) == Values(Change(a, b)) <==> a != b && !(a.Obj? && b.Obj?) && !(a.Arr? && b.Arr?)
  {
  }

  // ----- The status of a replay

  datatype Status = Identical | Different | Error

  method ReplayStatus(code: nat, historical: Json, payload: Json) returns (status: Status)
    ensures status.Error? <==> code >= 400
    ensures status.Identical? <==>
              && code < 400
              && historical == if payload.Obj? && Key("result") in payload.fields
                               then payload.fields[Key("result")] else payload
  {
    if code >= 400 {
      return Error;
    }
    var liveResult := payload;
    if payload.Obj? && Key("result") in payload.fields {
      liveResult := payload.fields[Key("result")];
    }
    var diff := DiffValues(historical, liveResult);
    EmptyIffEqual(historical, liveResult);
    status := if IsEmpty(diff) then Identical else Different;
  }
}
