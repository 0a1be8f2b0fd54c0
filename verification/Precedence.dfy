/** Bump runs against the precedence of section 11 of Semantic Versioning 2.0.0. */
module Precedence {
  import opened Wrappers
  import opened SemVer
  import opened Text

  // ----- The order

  /** Numbers compare by value and precede other identifiers, which compare as text. */
  predicate IdLess(a: string, b: string) {
    if AllDigits(a) && AllDigits(b) then Number(a) < Number(b)
    else if AllDigits(a) || AllDigits(b) then AllDigits(a)
    else TextLess(a, b)
  }

  predicate IdTied(a: string, b: string) {
    !IdLess(a, b) && !IdLess(b, a)
  }

  /** Identifier by identifier; of two equal beginnings the shorter list precedes. */
  predicate ListLess(a: seq<string>, b: seq<string>) {
    b != [] && (a == [] || IdLess(a[0], b[0]) || (IdTied(a[0], b[0]) && ListLess(a[1..], b[1..])))
  }

  predicate Precedes(v: SemVer, w: SemVer) {
    if v.major != w.major then v.major < w.major
    else if v.minor != w.minor then v.minor < w.minor
    else if v.patch != w.patch then v.patch < w.patch
    else PreLess(v.prerelease, w.prerelease)
  }

  /** A prerelease precedes the release itself. */
  predicate PreLess(a: Option<string>, b: Option<string>) {
    a.Some? && (b.None? || ListLess(Split(a.value), Split(b.value)))
  }

  lemma {:induction false} IdIrreflexive(a: string)
    ensures IdTied(a, a)
  {
    TextIrreflexive(a);
  }

  lemma {:induction false} IdTransitive(a: string, b: string, c: string)
    requires IdLess(a, b) || IdTied(a, b)
    requires IdLess(b, c) || IdTied(b, c)
    ensures IdLess(a, b) || IdLess(b, c) ==> IdLess(a, c)
    ensures IdTied(a, b) && IdTied(b, c) ==> IdTied(a, c)
  {
    if !AllDigits(a) && !AllDigits(b) && IdTied(a, b) {
      TextTotal(a, b);
    }
    if !AllDigits(b) && !AllDigits(c) && IdTied(b, c) {
      TextTotal(b, c);
    }
    if !AllDigits(a) && !AllDigits(b) && !AllDigits(c) && TextLess(a, b) && TextLess(b, c) {
      TextTransitive(a, b, c);
    }
  }

  lemma {:induction false} ListTransitive(a: seq<string>, b: seq<string>, c: seq<string>)
    requires ListLess(a, b) && ListLess(b, c)
    ensures ListLess(a, c)
    decreases |a|
  {
    if a != [] {
      IdTransitive(a[0], b[0], c[0]);
      if IdTied(a[0], b[0]) && IdTied(b[0], c[0]) && ListLess(a[1..], b[1..]) && ListLess(b[1..], c[1..]) {
        ListTransitive(a[1..], b[1..], c[1..]);
      }
      IdAsymmetric(a[0], b[0]);
      IdAsymmetric(b[0], c[0]);
    }
  }

  lemma {:induction false} IdAsymmetric(a: string, b: string)
    ensures !(IdLess(a, b) && IdLess(b, a))
  {
    if TextLess(a, b) && TextLess(b, a) {
      TextTransitive(a, b, a);
      TextIrreflexive(a);
    }
  }

  lemma {:induction false} ListIrreflexive(a: seq<string>)
    ensures !ListLess(a, a)
    decreases |a|
  {
    if a != [] {
      IdIrreflexive(a[0]);
      ListIrreflexive(a[1..]);
    }
  }

  /** Precedence is a strict order. */
  lemma {:induction false} PrecedesIsStrictOrder(u: SemVer, v: SemVer, w: SemVer)
    ensures !Precedes(v, v)
    ensures Precedes(u, v) && Precedes(v, w) ==> Precedes(u, w)
  {
    if v.prerelease.Some? {
      ListIrreflexive(Split(v.prerelease.value));
    }
    if u.prerelease.Some? && v.prerelease.Some? && w.prerelease.Some? {
      var a, b, c := Split(u.prerelease.value), Split(v.prerelease.value), Split(w.prerelease.value);
      if ListLess(a, b) && ListLess(b, c) {
        ListTransitive(a, b, c);
      }
    }
  }

  lemma {:induction false} HeadDecides(a: seq<string>, b: seq<string>)
    requires a != [] && b != [] && IdLess(a[0], b[0])
    ensures ListLess(a, b)
  {
  }

  lemma {:induction false} OneTwoEleven()
    ensures Number("1") == 1 && Number("2") == 2 && Number("11") == 11
  {
    NumberIsPositional("", '2');
    NumberIsPositional("", '1');
    NumberIsPositional("1", '1');
    assert "" + ['2'] == "2" && "" + ['1'] == "1" && "1" + ['1'] == "11";
  }

  /** The standard's own example of the order, from `1.0.0-alpha` to `1.0.0`. */
  lemma {:induction false} StandardExample()
    ensures ListLess(["alpha"], ["alpha", "1"])
    ensures ListLess(["alpha", "1"], ["alpha", "beta"])
    ensures ListLess(["alpha", "beta"], ["beta"])
    ensures ListLess(["beta"], ["beta", "2"])
    ensures ListLess(["beta", "2"], ["beta", "11"])
    ensures ListLess(["beta", "11"], ["rc", "1"])
    ensures Precedes(SemVer(1, 0, 0, Some("rc.1")), SemVer(1, 0, 0, None))
  {
    IdIrreflexive("alpha");
    IdIrreflexive("beta");
    assert ["alpha"][1..] == [] && ["beta"][1..] == [] && ["alpha", "1"][1..] == ["1"];
    assert ["alpha", "beta"][1..] == ["beta"] && ["beta", "2"][1..] == ["2"] && ["beta", "11"][1..] == ["11"];
    OneTwoEleven();
    HeadDecides(["1"], ["beta"]);
    HeadDecides(["2"], ["11"]);
    HeadDecides(["alpha", "beta"], ["beta"]);
    HeadDecides(["beta", "11"], ["rc", "1"]);
  }

  // ----- One bump

  /** Absent, or one alphanumeric identifier and a number. */
  predicate Counting(v: SemVer) {
    v.prerelease.Some? ==>
      var parts := Split(v.prerelease.value);
      |parts| == 2 && AllAlnum(parts[0]) && AllDigits(parts[1])
  }

  predicate ValidBump(b: Bump) {
    b.Prerelease? ==> AllAlnum(b.prefix)
  }

  lemma {:induction false} SplitCounter(prefix: string, n: nat)
    requires AllAlnum(prefix)
    ensures Split(prefix + "." + Decimal(n)) == [prefix, Decimal(n)]
  {
    PlainOfAlnum(prefix);
    SplitFirst(prefix, Decimal(n));
    SplitPlain(Decimal(n));
  }

  /** A prerelease that continues a prefix has it as first identifier, and at least one more. */
  lemma {:induction false} ContinuedParts(v: SemVer, prefix: string)
    requires Continues(v, prefix) && AllAlnum(prefix)
    ensures var parts := Split(v.prerelease.value); |parts| >= 2 && parts[0] == prefix
  {
    var pre := v.prerelease.value;
    PlainOfAlnum(prefix);
    var rest := pre[|prefix| + 1..];
    assert pre == prefix + "." + rest;
    SplitFirst(prefix, rest);
  }

  /**
   Exactly when a prerelease bump increases precedence: it starts a new
   counter, or the identifier right after the prefix is a number not above the
   last one.  It raises if and only if it continues a prerelease whose last
   identifier is no number.
   */
  lemma {:induction false} PrereleaseIncreasesIff(v: SemVer, prefix: string)
    requires AllAlnum(prefix)
    ensures var w := BumpPrerelease(v, prefix);
            && (w.None? <==> Continues(v, prefix) && !AllDigits(LastPart(v.prerelease.value)))
            && (w.Some? ==>
                  (Precedes(v, w.value) <==>
                     (Continues(v, prefix) ==>
                        var parts := Split(v.prerelease.value);
                        && |parts| >= 2 && AllDigits(parts[1])
                        && Number(parts[1]) <= Number(LastPart(v.prerelease.value)))))
  {
    if Continues(v, prefix) && AllDigits(LastPart(v.prerelease.value)) {
      var parts, next := Split(v.prerelease.value), Number(LastPart(v.prerelease.value)) + 1;
      ContinuedParts(v, prefix);
      SplitCounter(prefix, next);
      NumberOfDecimal(next);
      IdIrreflexive(prefix);
      var counter := [prefix, Decimal(next)];
      assert counter[1..] == [Decimal(next)] && counter[1..][1..] == [];
      assert ListLess(parts, counter) == ListLess(parts[1..], [Decimal(next)]);
      assert ListLess(parts[1..], [Decimal(next)]) == IdLess(parts[1], Decimal(next));
    }
  }

  lemma {:induction false} SplitTwoCounters(prefix: string, m: nat, n: nat)
    requires AllAlnum(prefix)
    ensures Split(prefix + "." + (Decimal(m) + "." + Decimal(n))) == [prefix, Decimal(m), Decimal(n)]
  {
    PlainOfAlnum(prefix);
    SplitFirst(prefix, Decimal(m) + "." + Decimal(n));
    SplitFirst(Decimal(m), Decimal(n));
    SplitPlain(Decimal(n));
  }

  lemma {:induction false} OneCounterPrecedesTwo(prefix: string, k: nat, m: nat, n: nat)
    requires k <= m
    ensures ListLess([prefix, Decimal(k)], [prefix, Decimal(m), Decimal(n)])
  {
    IdIrreflexive(prefix);
    NumberOfDecimal(k);
    NumberOfDecimal(m);
    var a, b := [prefix, Decimal(k)], [prefix, Decimal(m), Decimal(n)];
    assert a[1..] == [Decimal(k)] && b[1..] == [Decimal(m), Decimal(n)];
    assert ListLess(a[1..], b[1..]) by {
      assert a[1..][1..] == [] && b[1..][1..] == [Decimal(n)];
    }
  }

  lemma {:induction false} LastOfSplit(front: string, last: string)
    requires '.' !in last
    ensures LastPart(front + "." + last) == last
    decreases |front|
  {
    var s := front + "." + last;
    if front == "" {
      assert s[1..] == last;
      SplitPlain(last);
    } else {
      assert s[1..] == front[1..] + "." + last;
      LastOfSplit(front[1..], last);
      if front[0] != '.' {
        DotSplits(front[1..], last);
      }
    }
  }

  lemma {:induction false} DotSplits(front: string, last: string)
    ensures |Split(front + "." + last)| >= 2
    decreases |front|
  {
    var s := front + "." + last;
    if front == "" {
      assert s[1..] == last;
    } else {
      assert s[1..] == front[1..] + "." + last;
      DotSplits(front[1..], last);
    }
  }

  /** Whatever stands between the prefix and the last number, the bump gives the prefix and the next number. */
  lemma {:induction false} BumpTakesLastNumber(v: SemVer, prefix: string, front: string, n: nat)
    requires prefix + "." <= front + "." && v.prerelease == Some(front + "." + Decimal(n))
    ensures BumpPrerelease(v, prefix) == Some(v.(prerelease := Some(prefix + "." + Decimal(n + 1))))
  {
    LastOfSplit(front, Decimal(n));
    NumberOfDecimal(n);
    assert (front + "." + Decimal(n))[..|front| + 1] == front + ".";
    assert prefix + "." <= front + "." + Decimal(n);
  }

  /** With two counters, the second below the first, a bump falls back: `rc.9.1` is followed by `rc.2`. */
  lemma {:induction false} TwoCountersFallBack(v: SemVer, prefix: string, m: nat, n: nat)
    requires AllAlnum(prefix) && n < m
    requires v.prerelease == Some(prefix + "." + (Decimal(m) + "." + Decimal(n)))
    ensures var w := v.(prerelease := Some(prefix + "." + Decimal(n + 1)));
            BumpPrerelease(v, prefix) == Some(w) && Precedes(w, v)
  {
    SplitTwoCounters(prefix, m, n);
    SplitCounter(prefix, n + 1);
    NumberOfDecimal(n);
    OneCounterPrecedesTwo(prefix, n + 1, m, n);
    assert Continues(v, prefix);
  }

  lemma {:induction false} NineOneFallsBack()
    ensures var v, w := SemVer(1, 0, 0, Some("rc.9.1")), SemVer(1, 0, 0, Some("rc.2"));
            BumpPrerelease(v, "rc") == Some(w) && Precedes(w, v)
  {
    assert Decimal(9) == "9" && Decimal(1) == "1" && Decimal(2) == "2";
    assert "rc" + "." + ("9" + "." + "1") == "rc.9.1" && "rc" + "." + "2" == "rc.2";
    TwoCountersFallBack(SemVer(1, 0, 0, Some("rc.9.1")), "rc", 9, 1);
  }

  lemma {:induction false} BumpIncreases(v: SemVer, b: Bump)
    requires Counting(v) && ValidBump(b)
    ensures var w := Apply(v, b);
            w.Some? && Counting(w.value) && WellFormed(w.value) && Precedes(v, w.value)
  {
    if b.Prerelease? {
      PrereleaseIncreasesIff(v, b.prefix);
      if Continues(v, b.prefix) {
        SplitCounter(b.prefix, Number(LastPart(v.prerelease.value)) + 1);
      } else {
        SplitCounter(b.prefix, 1);
        assert b.prefix + "." + Decimal(1) == b.prefix + ".1";
      }
    }
    CountingIsWellFormed(Apply(v, b).value);
  }

  /** The least release of which `raises` holds. */
  ghost predicate IsLeastRaise(r: SemVer, raises: SemVer -> bool) {
    && r.prerelease.None? && raises(r)
    && forall w: SemVer :: w.prerelease.None? && raises(w) ==> w == r || Precedes(r, w)
  }

  /**
   A major, minor or patch bump gives the least release that raises that part
   and keeps the parts before it.  A prerelease bump that continues a counter
   gives its next value, and one that does not opens the counter of the next
   patch at 1.
   */
  lemma {:induction false} BumpsAreLeast(v: SemVer, prefix: string, n: nat)
    requires AllAlnum(prefix)
    ensures Apply(v, Major).Some? && IsLeastRaise(Apply(v, Major).value, (w: SemVer) => w.major > v.major)
    ensures Apply(v, Minor).Some?
            && IsLeastRaise(Apply(v, Minor).value, (w: SemVer) => w.major == v.major && w.minor > v.minor)
    ensures Apply(v, Patch).Some?
            && IsLeastRaise(Apply(v, Patch).value,
                            (w: SemVer) => w.major == v.major && w.minor == v.minor && w.patch > v.patch)
    ensures var counted := v.(prerelease := Some(prefix + "." + Decimal(n)));
            Apply(counted, Prerelease(prefix)) == Some(v.(prerelease := Some(prefix + "." + Decimal(n + 1))))
    ensures !Continues(v, prefix) ==>
              Apply(v, Prerelease(prefix))
              == Some(SemVer(v.major, v.minor, v.patch + 1, Some(prefix + "." + Decimal(1))))
  {
    SplitCounter(prefix, n);
    NumberOfDecimal(n);
    assert prefix + "." + Decimal(1) == prefix + ".1";
  }

  // ----- Whole runs

  /** The versions of a run, the first being the one it starts from. */
  function Versions(v: SemVer, bumps: seq<Bump>): seq<SemVer>
    decreases |bumps|
  {
    if bumps == [] || Apply(v, bumps[0]).None? then [v]
    else [v] + Versions(Apply(v, bumps[0]).value, bumps[1..])
  }

  lemma {:induction false} RunFollows(v: SemVer, bumps: seq<Bump>)
    requires Counting(v) && forall i :: 0 <= i < |bumps| ==> ValidBump(bumps[i])
    ensures var vs := Versions(v, bumps);
            && |vs| == |bumps| + 1 && vs[0] == v
            && (forall i :: 0 <= i < |vs| ==> Counting(vs[i]))
            && (forall j :: 0 < j < |vs| ==> WellFormed(vs[j]) && Precedes(v, vs[j]))
    decreases |bumps|
  {
    if bumps != [] {
      BumpIncreases(v, bumps[0]);
      var w := Apply(v, bumps[0]).value;
      RunFollows(w, bumps[1..]);
      var rest := Versions(w, bumps[1..]);
      assert Versions(v, bumps) == [v] + rest;
      forall j | 0 <= j < |rest| ensures Precedes(v, rest[j]) && WellFormed(rest[j]) {
        PrecedesIsStrictOrder(v, w, rest[j]);
      }
    }
  }

  lemma {:induction false} TagsDiffer(v: SemVer, w: SemVer)
    requires WellFormed(v) && WellFormed(w) && Precedes(v, w)
    ensures Tag(v) != Tag(w)
  {
    RoundTrip(v);
    RoundTrip(w);
    PrecedesIsStrictOrder(v, v, v);
  }

  /**
   Any run of bumps from a release, or from a counted prerelease, succeeds,
   keeps that shape, and strictly increases precedence at every step; so no
   tag is ever made twice.
   */
  lemma {:induction false} EveryRunIncreases(v: SemVer, bumps: seq<Bump>, i: nat, j: nat)
    requires Counting(v) && forall k :: 0 <= k < |bumps| ==> ValidBump(bumps[k])
    requires i < j <= |bumps|
    ensures var vs := Versions(v, bumps);
            && |vs| == |bumps| + 1 && Counting(vs[j])
            && Precedes(vs[i], vs[j]) && Tag(vs[i]) != Tag(vs[j])
    decreases i
  {
    RunFollows(v, bumps);
    var vs := Versions(v, bumps);
    if i == 0 {
      CountingIsWellFormed(v);
      TagsDiffer(v, vs[j]);
    } else {
      BumpIncreases(v, bumps[0]);
      var w := Apply(v, bumps[0]).value;
      EveryRunIncreases(w, bumps[1..], i - 1, j - 1);
      assert vs == [v] + Versions(w, bumps[1..]);
    }
  }

  lemma {:induction false} CountingIsWellFormed(v: SemVer)
    requires Counting(v)
    ensures WellFormed(v)
  {
    if v.prerelease.Some? {
      var parts := Split(v.prerelease.value);
      assert forall k :: 0 <= k < |parts[1]| ==> IsDigit(parts[1][k]);
      assert AllAlnum(parts[1]);
    }
  }
}
