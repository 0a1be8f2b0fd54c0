/** The global sliding-window rate limit: at most ten requests a minute. */
module RateLimiter {

  const LIMIT: nat := 10
  const WINDOW: real := 60.0

  predicate Ordered(times: seq<real>) {
    forall i, j :: 0 <= i < j < |times| ==> times[i] <= times[j]
  }

  /** How many of the times are at or after `start`. */
  function CountSince(times: seq<real>, start: real): nat {
    if times == [] then 0
    else CountSince(times[..|times| - 1], start) + if times[|times| - 1] >= start then 1 else 0
  }

  /** How many of the times lie in the closed interval. */
  function CountIn(times: seq<real>, start: real, end: real): nat {
    if times == [] then 0
    else CountIn(times[..|times| - 1], start, end) + if start <= times[|times| - 1] <= end then 1 else 0
  }

  lemma {:induction false} CountSinceAll(times: seq<real>, start: real)
    requires forall i :: 0 <= i < |times| ==> times[i] >= start
    ensures CountSince(times, start) == |times|
    decreases |times|
  {
    if times != [] {
      CountSinceAll(times[..|times| - 1], start);
    }
  }

  lemma {:induction false} CountSinceConcat(a: seq<real>, b: seq<real>, start: real)
    ensures CountSince(a + b, start) == CountSince(a, start) + CountSince(b, start)
    decreases |b|
  {
    if b == [] {
      assert a + b == a;
    } else {
      assert (a + b)[..|a + b| - 1] == a + b[..|b| - 1];
      CountSinceConcat(a, b[..|b| - 1], start);
    }
  }

  lemma {:induction false} CountSinceNone(times: seq<real>, start: real)
    requires forall i :: 0 <= i < |times| ==> times[i] < start
    ensures CountSince(times, start) == 0
    decreases |times|
  {
    if times != [] {
      CountSinceNone(times[..|times| - 1], start);
    }
  }

  /** What is left once leading times before `start` are popped. */
  function Prune(window: seq<real>, start: real): seq<real> {
    if window != [] && window[0] < start then Prune(window[1..], start) else window
  }

  /** `times` split at `n`: everything before it is earlier than `start`. */
  predicate OldBefore(times: seq<real>, n: nat, start: real)
    requires n <= |times|
  {
    forall i :: 0 <= i < n ==> times[i] < start
  }

  lemma {:induction false} PruneSuffix(times: seq<real>, n: nat, start: real) returns (m: nat)
    requires n <= |times| && OldBefore(times, n, start)
    ensures n <= m <= |times| && OldBefore(times, m, start)
    ensures Prune(times[n..], start) == times[m..]
    ensures m < |times| ==> times[m] >= start
    decreases |times| - n
  {
    if n < |times| && times[n] < start {
      assert times[n..][1..] == times[n + 1..];
      m := PruneSuffix(times, n + 1, start);
    } else {
      m := n;
    }
  }

  /** The window is the end of the accepted calls, and what was dropped is more than a minute old. */
  ghost predicate Tracks(window: seq<real>, accepted: seq<real>, latest: real) {
    |window| <= LIMIT && exists n :: 0 <= n <= |accepted| && EndsAt(window, accepted, n, latest)
  }

  predicate EndsAt(window: seq<real>, accepted: seq<real>, n: nat, latest: real)
    requires n <= |accepted|
  {
    window == accepted[n..] && OldBefore(accepted, n, latest - WINDOW)
  }

  /** Pruning the window leaves exactly the accepted calls of the last minute. */
  lemma {:induction false} PruneTracks(window: seq<real>, accepted: seq<real>, latest: real, now: real)
    requires Tracks(window, accepted, latest) && Ordered(accepted) && now >= latest
    ensures var pruned := Prune(window, now - WINDOW);
            && Tracks(pruned, accepted, now)
            && |pruned| == CountSince(accepted, now - WINDOW)
  {
    var n :| 0 <= n <= |accepted| && EndsAt(window, accepted, n, latest);
    var m := PruneSuffix(accepted, n, now - WINDOW);
    assert EndsAt(Prune(window, now - WINDOW), accepted, m, now);
    WindowCounts(accepted, m, now - WINDOW);
  }

  lemma {:induction false} AcceptTracks(window: seq<real>, accepted: seq<real>, now: real)
    requires Tracks(window, accepted, now) && |window| < LIMIT
    ensures Tracks(window + [now], accepted + [now], now)
  {
    var n :| 0 <= n <= |accepted| && EndsAt(window, accepted, n, now);
    var later := accepted + [now];
    assert later[n..] == window + [now];
    assert OldBefore(later, n, now - WINDOW);
    assert EndsAt(window + [now], later, n, now);
  }

  lemma {:induction false} OrderedAppend(times: seq<real>, now: real)
    requires Ordered(times) && (times != [] ==> times[|times| - 1] <= now)
    ensures Ordered(times + [now])
  {
    assert forall i :: 0 <= i < |times| ==> times[i] <= times[|times| - 1];
  }

  /** The whole invariant: the window tracks a history that is ordered, spaced, and not in the future. */
  ghost predicate Keeps(window: seq<real>, accepted: seq<real>, latest: real) {
    && Tracks(window, accepted, latest)
    && Ordered(accepted) && Spaced(accepted)
    && (accepted != [] ==> accepted[|accepted| - 1] <= latest)
  }

  lemma {:induction false} PruneKeeps(window: seq<real>, accepted: seq<real>, latest: real, now: real)
    requires Keeps(window, accepted, latest) && now >= latest
    ensures Keeps(Prune(window, now - WINDOW), accepted, now)
    ensures |Prune(window, now - WINDOW)| == CountSince(accepted, now - WINDOW)
  {
    PruneTracks(window, accepted, latest, now);
  }

  lemma {:induction false} AcceptKeeps(window: seq<real>, accepted: seq<real>, now: real)
    requires Keeps(window, accepted, now) && |window| == CountSince(accepted, now - WINDOW) < LIMIT
    ensures Keeps(window + [now], accepted + [now], now)
  {
    AcceptTracks(window, accepted, now);
    OrderedAppend(accepted, now);
    SpacedAppend(accepted, now);
  }

  class RateLimit {
    var window: seq<real>
    /** All accepted calls, and the time of the latest call of any kind. */
    ghost var accepted: seq<real>
    ghost var latest: real

    ghost predicate Valid()
      reads this
    {
      Keeps(window, accepted, latest)
    }

    /** `start` is what the clock shows when the bucket is first used. */
    constructor (ghost start: real)
      ensures Valid() && accepted == [] && latest == start
    {
      window, accepted, latest := [], [], start;
      new;
      assert EndsAt([], [], 0, start);
    }

    /** Pops what is more than a minute old. */
    method PruneWindow(now: real)
      modifies this`window
      ensures window == Prune(old(window), now - WINDOW)
    {
      while window != [] && window[0] < now - WINDOW
        invariant Prune(window, now - WINDOW) == Prune(old(window), now - WINDOW)
        decreases |window|
      {
        window := window[1..];
      }
    }

    /** One call at a time that is no earlier than the calls before it. */
    method Call(now: real) returns (ok: bool)
      requires Valid() && now >= latest
      modifies this
      ensures Valid() && latest == now
      ensures ok <==> CountSince(old(accepted), now - 60.0) < 10
      ensures ok <==> |old(accepted)| < 10 || old(accepted)[|old(accepted)| - 10] < now - 60.0
      ensures accepted == if ok then old(accepted) + [now] else old(accepted)
    {
      PruneKeeps(window, accepted, latest, now);
      PruneWindow(now);
      FewerThanTen(accepted, now - WINDOW);
      latest := now;
      if |window| >= LIMIT {
        return false;
      }
      AcceptKeeps(window, accepted, now);
      window := window + [now];
      accepted := accepted + [now];
      return true;
    }
  }

  lemma {:induction false} WindowCounts(times: seq<real>, dropped: nat, start: real)
    requires Ordered(times) && dropped <= |times|
    requires forall i :: 0 <= i < dropped ==> times[i] < start
    requires dropped < |times| ==> times[dropped] >= start
    ensures CountSince(times, start) == |times| - dropped
  {
    assert times == times[..dropped] + times[dropped..];
    CountSinceConcat(times[..dropped], times[dropped..], start);
    CountSinceNone(times[..dropped], start);
    CountSinceAll(times[dropped..], start);
  }

  // ----- The limit over any minute

  /** Any accepted call comes more than a minute after the tenth before it, and all earlier ones. */
  predicate Spaced(times: seq<real>) {
    forall i, j :: 0 <= i && i + LIMIT <= j < |times| ==> times[j] - times[i] > WINDOW
  }

  lemma {:induction false} SpacedAppend(times: seq<real>, now: real)
    requires Ordered(times) && Spaced(times) && CountSince(times, now - WINDOW) < LIMIT
    ensures Spaced(times + [now])
  {
    if |times| >= LIMIT {
      var n := |times| - LIMIT;
      TenthIsOld(times, n, now - WINDOW);
      var later := times + [now];
      forall i, j | 0 <= i && i + LIMIT <= j < |later| ensures later[j] - later[i] > WINDOW {
        if j == |times| {
          assert times[i] <= times[n];
        }
      }
    }
  }

  /** If fewer times than the last ones from n on count, the n-th is too old to count. */
  lemma {:induction false} TenthIsOld(times: seq<real>, n: nat, start: real)
    requires Ordered(times) && n < |times| && CountSince(times, start) < |times| - n
    ensures times[n] < start
  {
    if times[n] >= start {
      assert times == times[..n] + times[n..];
      CountSinceConcat(times[..n], times[n..], start);
      CountSinceAll(times[n..], start);
    }
  }

  /** Fewer than ten of the times count if and only if there are fewer, or the tenth from the end is too old. */
  lemma {:induction false} FewerThanTen(times: seq<real>, start: real)
    requires Ordered(times)
    ensures CountSince(times, start) < LIMIT <==> |times| < LIMIT || times[|times| - LIMIT] < start
  {
    if |times| < LIMIT {
      CountSinceAtMost(times, start);
    } else {
      var n := |times| - LIMIT;
      if times[n] < start {
        assert times == times[..n + 1] + times[n + 1..];
        CountSinceConcat(times[..n + 1], times[n + 1..], start);
        CountSinceNone(times[..n + 1], start);
        CountSinceAtMost(times[n + 1..], start);
      } else if CountSince(times, start) < LIMIT {
        TenthIsOld(times, n, start);
      }
    }
  }

  lemma {:induction false} CountSinceAtMost(times: seq<real>, start: real)
    ensures CountSince(times, start) <= |times|
    decreases |times|
  {
    if times != [] {
      CountSinceAtMost(times[..|times| - 1], start);
    }
  }

  /** Times before the interval do not count, and the others count at most once each. */
  lemma {:induction false} CountInBounded(times: seq<real>, n: nat, start: real, end: real)
    requires n <= |times| && OldBefore(times, n, start)
    ensures CountIn(times, start, end) <= |times| - n
    decreases |times|
  {
    if times != [] {
      var init := times[..|times| - 1];
      CountInBounded(init, if n < |times| then n else n - 1, start, end);
    }
  }

  /** No closed minute ever contains more than ten accepted calls. */
  lemma {:induction false} AtMostTenAMinute(times: seq<real>, start: real)
    requires Ordered(times) && Spaced(times)
    ensures CountIn(times, start, start + WINDOW) <= LIMIT
    decreases |times|
  {
    if |times| <= LIMIT {
      CountInBounded(times, 0, start, start + WINDOW);
    } else {
      var last, n := times[|times| - 1], |times| - LIMIT;
      if last > start + WINDOW {
        AtMostTenAMinute(times[..|times| - 1], start);
      } else {
        assert last - times[n - 1] > WINDOW;
        CountInBounded(times, n, start, start + WINDOW);
      }
    }
  }

  /** Whatever calls a limiter has accepted, it never accepted more than ten in one minute. */
  lemma {:induction false} LimiterKeepsLimit(limiter: RateLimit, start: real)
    requires limiter.Valid()
    ensures CountIn(limiter.accepted, start, start + 60.0) <= 10
    ensures forall i, j :: 0 <= i && i + 10 <= j < |limiter.accepted| ==>
              limiter.accepted[j] - limiter.accepted[i] > 60.0
    ensures |limiter.window| <= 10 && Ordered(limiter.window)
  {
    AtMostTenAMinute(limiter.accepted, start);
    var n :| 0 <= n <= |limiter.accepted| && EndsAt(limiter.window, limiter.accepted, n, limiter.latest);
  }
}
