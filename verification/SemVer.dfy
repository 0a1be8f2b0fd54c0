/** Semantic versions as `agenticapi bump` parses, prints and bumps them. */
module SemVer {
  import opened Wrappers

  datatype SemVer = SemVer(major: nat, minor: nat, patch: nat, prerelease: Option<string>)

  // ----- Characters and numbers

  predicate IsDigit(c: char) {
    '0' <= c <= '9'
  }

  predicate IsAlnum(c: char) {
    IsDigit(c) || 'a' <= c <= 'z' || 'A' <= c <= 'Z'
  }

  predicate AllDigits(s: string) {
    s != "" && forall i :: 0 <= i < |s| ==> IsDigit(s[i])
  }

  predicate AllAlnum(s: string) {
    s != "" && forall i :: 0 <= i < |s| ==> IsAlnum(s[i])
  }

  function DigitChar(d: nat): (c: char)
    requires d < 10
    ensures IsDigit(c)
  {
    '0' + d as char
  }

  function DigitValue(c: char): (d: nat)
    requires IsDigit(c)
    ensures d < 10
  {
    (c - '0') as nat
  }

  /** Decimal notation, without leading zeros. */
  function Decimal(n: nat): (s: string)
    ensures AllDigits(s)
  {
    if n < 10 then [DigitChar(n)] else Decimal(n / 10) + [DigitChar(n % 10)]
  }

  function Number(s: string): nat
    requires forall i :: 0 <= i < |s| ==> IsDigit(s[i])
  {
    if s == "" then 0 else 10 * Number(s[..|s| - 1]) + DigitValue(s[|s| - 1])
  }

  lemma {:induction false} NumberOfDecimal(n: nat)
    ensures Number(Decimal(n)) == n
    decreases n
  {
    if n >= 10 {
      NumberOfDecimal(n / 10);
      assert Decimal(n)[..|Decimal(n)| - 1] == Decimal(n / 10);
    }
  }

  // ----- Dotted identifiers

  function Split(s: string): (parts: seq<string>)
    ensures parts != []
  {
    if s == "" then [""]
    else if s[0] == '.' then [""] + Split(s[1..])
    else
      var rest := Split(s[1..]);
      [[s[0]] + rest[0]] + rest[1..]
  }

  predicate Grammatical(pre: string) {
    forall i :: 0 <= i < |Split(pre)| ==> AllAlnum(Split(pre)[i])
  }

  predicate WellFormed(v: SemVer) {
    v.prerelease.Some? ==> Grammatical(v.prerelease.value)
  }

  lemma {:induction false} SplitPlain(s: string)
    requires '.' !in s
    ensures Split(s) == [s]
    decreases |s|
  {
    if s != "" {
      SplitPlain(s[1..]);
      assert [s[0]] + s[1..] == s;
    }
  }

  lemma {:induction false} SplitFirst(id: string, rest: string)
    requires '.' !in id
    ensures Split(id + "." + rest) == [id] + Split(rest)
    decreases |id|
  {
    var s := id + "." + rest;
    if id == "" {
      assert s[1..] == rest;
    } else {
      SplitFirst(id[1..], rest);
      assert s[1..] == id[1..] + "." + rest;
      assert [id[0]] + id[1..] == id;
    }
  }

  predicate SplitsAt(s: string, n: nat) {
    n < |s| && s[n] == '.' && Split(s) == [s[..n]] + Split(s[n + 1..])
  }

  lemma {:induction false} SplitsLater(s: string, n: nat)
    requires s != "" && s[0] != '.' && SplitsAt(s[1..], n)
    ensures SplitsAt(s, n + 1)
  {
    assert s[1..][n + 1..] == s[n + 2..] && [s[0]] + s[1..][..n] == s[..n + 1];
  }

  lemma {:induction false} SplitBack(s: string) returns (n: nat)
    requires |Split(s)| >= 2
    ensures SplitsAt(s, n)
    decreases |s|
  {
    if s[0] == '.' {
      n := 0;
      assert s[..0] == "";
    } else {
      var m := SplitBack(s[1..]);
      SplitsLater(s, m);
      n := m + 1;
    }
  }

  lemma {:induction false} PlainOfAlnum(s: string)
    requires AllAlnum(s)
    ensures '.' !in s
  {
  }

  predicate IsIdentifierChar(c: char) {
    '0' <= c <= '9' || 'a' <= c <= 'z' || 'A' <= c <= 'Z'
  }

  /** Letters, digits and dots; a dot is neither first nor last, nor right before another. */
  predicate LooksGrammatical(pre: string) {
    && pre != ""
    && (forall i :: 0 <= i < |pre| ==> IsIdentifierChar(pre[i]) || pre[i] == '.')
    && (forall i :: 0 <= i < |pre| && pre[i] == '.' ==> 0 < i < |pre| - 1 && pre[i + 1] != '.')
  }

  /** The tail of a grammatical text, when it does not begin at a dot or right after one. */
  predicate TailGrammatical(s: string) {
    s == "" || (s[0] == '.' && Grammatical(s[1..])) || (s[0] != '.' && Grammatical(s))
  }

  predicate AllParts(parts: seq<string>) {
    forall i :: 0 <= i < |parts| ==> AllAlnum(parts[i])
  }

  lemma {:induction false} AllPartsHead(parts: seq<string>)
    requires parts != []
    ensures AllParts(parts) <==> AllAlnum(parts[0]) && AllParts(parts[1..])
  {
    if AllAlnum(parts[0]) && AllParts(parts[1..]) {
      forall i | 0 <= i < |parts| ensures AllAlnum(parts[i]) {
        assert i > 0 ==> parts[i] == parts[1..][i - 1];
      }
    }
  }

  lemma {:induction false} AlnumHead(c: char, s: string)
    ensures AllAlnum([c] + s) <==> IsAlnum(c) && (s == "" || AllAlnum(s))
  {
    assert ([c] + s)[0] == c;
    assert forall i :: 0 <= i < |s| ==> ([c] + s)[i + 1] == s[i];
  }

  lemma {:induction false} GrammaticalByTail(s: string)
    requires s != "" && s[0] != '.'
    ensures Grammatical(s) <==> IsAlnum(s[0]) && TailGrammatical(s[1..])
  {
    var parts, rest := Split(s), Split(s[1..]);
    assert parts[0] == [s[0]] + rest[0] && parts[1..] == rest[1..];
    AllPartsHead(parts);
    AllPartsHead(rest);
    AlnumHead(s[0], rest[0]);
    TailByParts(s[1..]);
  }

  lemma {:induction false} TailByParts(s: string)
    ensures TailGrammatical(s) <==>
            AllParts(Split(s)[1..]) && (Split(s)[0] == "" || AllAlnum(Split(s)[0]))
  {
    if s != "" {
      AllPartsHead(Split(s));
      if s[0] == '.' {
        assert Split(s)[1..] == Split(s[1..]);
      }
    }
  }

  /** Which prereleases the tag pattern takes, character by character. */
  lemma {:induction false} GrammaticalMeans(pre: string)
    ensures Grammatical(pre) <==> LooksGrammatical(pre)
    decreases |pre|
  {
    if pre == "" || pre[0] == '.' {
      assert Split(pre)[0] == "";
    } else {
      GrammaticalByTail(pre);
      var rest := pre[1..];
      assert forall i :: 0 <= i < |rest| ==> rest[i] == pre[i + 1];
      if rest != "" && rest[0] == '.' {
        GrammaticalMeans(rest[1..]);
        LooksAfterDot(pre);
      } else if rest != "" {
        GrammaticalMeans(rest);
        LooksAfterLetter(pre);
      }
    }
  }

  lemma {:induction false} LooksAfterDot(pre: string)
    requires |pre| >= 2 && pre[0] != '.' && pre[1] == '.'
    ensures LooksGrammatical(pre) <==> IsIdentifierChar(pre[0]) && LooksGrammatical(pre[2..])
  {
    var rest := pre[2..];
    assert forall i :: 0 <= i < |rest| ==> rest[i] == pre[i + 2];
    if LooksGrammatical(pre) {
      assert pre[1] == '.' && pre[2] == rest[0] != '.';
    }
    if IsIdentifierChar(pre[0]) && LooksGrammatical(rest) {
      forall i | 0 <= i < |pre| ensures IsIdentifierChar(pre[i]) || pre[i] == '.' {
        assert i >= 2 ==> pre[i] == rest[i - 2];
      }
      forall i | 0 <= i < |pre| && pre[i] == '.' ensures 0 < i < |pre| - 1 && pre[i + 1] != '.' {
        assert i >= 2 ==> pre[i] == rest[i - 2];
        assert rest[0] != '.';
      }
    }
  }

  lemma {:induction false} LooksAfterLetter(pre: string)
    requires |pre| >= 2 && pre[0] != '.' && pre[1] != '.'
    ensures LooksGrammatical(pre) <==> IsIdentifierChar(pre[0]) && LooksGrammatical(pre[1..])
  {
    var rest := pre[1..];
    assert forall i :: 0 <= i < |rest| ==> rest[i] == pre[i + 1];
    if IsIdentifierChar(pre[0]) && LooksGrammatical(rest) {
      forall i | 0 <= i < |pre| ensures IsIdentifierChar(pre[i]) || pre[i] == '.' {
        assert i >= 1 ==> pre[i] == rest[i - 1];
      }
      forall i | 0 <= i < |pre| && pre[i] == '.' ensures 0 < i < |pre| - 1 && pre[i + 1] != '.' {
        assert i >= 1 ==> pre[i] == rest[i - 1];
      }
    }
  }

  /** A grammatical prerelease starts and ends with an alphanumeric character. */
  lemma {:induction false} GrammaticalEnds(pre: string)
    requires Grammatical(pre)
    ensures pre != "" && IsAlnum(pre[0]) && IsAlnum(pre[|pre| - 1])
    decreases |pre|
  {
    var parts := Split(pre);
    assert AllAlnum(parts[0]);
    if |parts| >= 2 {
      var n := SplitBack(pre);
      var rest := pre[n + 1..];
      assert forall i :: 0 <= i < |Split(rest)| ==> Split(rest)[i] == parts[i + 1];
      GrammaticalEnds(rest);
    } else {
      SinglePart(pre);
    }
  }

  lemma {:induction false} SinglePart(s: string)
    requires |Split(s)| == 1
    ensures Split(s) == [s]
    decreases |s|
  {
    if s != "" {
      SinglePart(s[1..]);
      assert [s[0]] + s[1..] == s;
    }
  }

  // ----- Printing and parsing

  /** An empty prerelease prints like none. */
  function ToString(v: SemVer): string {
    Decimal(v.major) + "." + Decimal(v.minor) + "." + Decimal(v.patch) + Suffix(v.prerelease)
  }

  function Suffix(pre: Option<string>): string {
    if pre.Some? && pre.value != "" then "-" + pre.value else ""
  }

  function Tag(v: SemVer): string {
    "v" + ToString(v)
  }

  function DigitSpan(s: string): (n: nat)
    ensures n <= |s| && forall i :: 0 <= i < n ==> IsDigit(s[i])
  {
    if s == "" || !IsDigit(s[0]) then 0 else 1 + DigitSpan(s[1..])
  }

  /** A number, and what follows it. */
  function ParseNumber(s: string): Option<(nat, string)> {
    var n := DigitSpan(s);
    if n == 0 then None else Some((Number(s[..n]), s[n..]))
  }

  function ParseDottedNumber(s: string): Option<(nat, string)> {
    if s == "" || s[0] != '.' then None else ParseNumber(s[1..])
  }

  function ParseSuffix(s: string): Option<Option<string>> {
    if s == "" then Some(None)
    else if s[0] == '-' && Grammatical(s[1..]) then Some(Some(s[1..]))
    else None
  }

  function ParseVersion(s: string): Option<SemVer> {
    var major := ParseNumber(s);
    if major.None? then None else
    var minor := ParseDottedNumber(major.value.1);
    if minor.None? then None else
    var patch := ParseDottedNumber(minor.value.1);
    if patch.None? then None else
    var pre := ParseSuffix(patch.value.1);
    if pre.None? then None else
    Some(SemVer(major.value.0, minor.value.0, patch.value.0, pre.value))
  }

  /** The end anchor also matches before one final newline. */
  function Parse(tag: string): Option<SemVer> {
    ParseVersion(WithoutV(WithoutNewline(tag)))
  }

  function WithoutNewline(s: string): string {
    if s != "" && s[|s| - 1] == '\n' then s[..|s| - 1] else s
  }

  function WithoutV(s: string): string {
    if s != "" && s[0] == 'v' then s[1..] else s
  }

  lemma {:induction false} DigitSpanOf(digits: string, rest: string)
    requires forall i :: 0 <= i < |digits| ==> IsDigit(digits[i])
    requires rest == "" || !IsDigit(rest[0])
    ensures DigitSpan(digits + rest) == |digits|
    decreases |digits|
  {
    if digits == "" {
      assert digits + rest == rest;
    } else {
      assert (digits + rest)[1..] == digits[1..] + rest;
      DigitSpanOf(digits[1..], rest);
    }
  }

  lemma {:induction false} ParseNumberOf(digits: string, rest: string)
    requires AllDigits(digits) && (rest == "" || !IsDigit(rest[0]))
    ensures ParseNumber(digits + rest) == Some((Number(digits), rest))
  {
    DigitSpanOf(digits, rest);
    assert (digits + rest)[..|digits|] == digits;
  }

  lemma {:induction false} ParseDottedNumberOf(digits: string, rest: string)
    requires AllDigits(digits) && (rest == "" || !IsDigit(rest[0]))
    ensures ParseDottedNumber("." + digits + rest) == Some((Number(digits), rest))
  {
    ParseNumberOf(digits, rest);
    assert ("." + digits + rest)[1..] == digits + rest;
  }

  lemma {:induction false} SuffixParses(pre: Option<string>)
    requires pre.Some? ==> Grammatical(pre.value)
    ensures ParseSuffix(Suffix(pre)) == Some(pre)
    ensures Suffix(pre) == "" || !IsDigit(Suffix(pre)[0])
  {
    if pre.Some? {
      GrammaticalEnds(pre.value);
      assert Suffix(pre)[1..] == pre.value;
    }
  }

  lemma {:induction false} JoinPrinted(a: string, b: string, c: string, suffix: string)
    ensures a + "." + b + "." + c + suffix == a + ("." + b + ("." + c + suffix))
  {
  }

  // ----- What the tag pattern accepts

  /** A spelling of a version, without `v` and newline: three numerals and perhaps a grammatical prerelease. */
  datatype Spelling = Spelling(major: string, minor: string, patch: string, prerelease: Option<string>) {
    predicate Valid() {
      && AllDigits(major) && AllDigits(minor) && AllDigits(patch)
      && (prerelease.Some? ==> Grammatical(prerelease.value))
    }

    function Text(): string {
      major + "." + minor + "." + patch + if prerelease.Some? then "-" + prerelease.value else ""
    }

    function Meaning(): SemVer
      requires Valid()
    {
      SemVer(Number(major), Number(minor), Number(patch), prerelease)
    }
  }

  lemma {:induction false} SpellingParses(sp: Spelling)
    requires sp.Valid()
    ensures ParseVersion(sp.Text()) == Some(sp.Meaning())
  {
    SuffixParses(sp.prerelease);
    if sp.prerelease.Some? {
      GrammaticalEnds(sp.prerelease.value);
    }
    var suffix := Suffix(sp.prerelease);
    var r2 := "." + sp.patch + suffix;
    var r1 := "." + sp.minor + r2;
    ParseNumberOf(sp.major, r1);
    ParseDottedNumberOf(sp.minor, r2);
    ParseDottedNumberOf(sp.patch, suffix);
    JoinPrinted(sp.major, sp.minor, sp.patch, suffix);
  }

  lemma {:induction false} ParsedNumberSplits(s: string) returns (digits: string)
    requires ParseNumber(s).Some?
    ensures AllDigits(digits) && s == digits + ParseNumber(s).value.1 && Number(digits) == ParseNumber(s).value.0
  {
    digits := s[..DigitSpan(s)];
  }

  lemma {:induction false} ParsedIsSpelled(s: string) returns (sp: Spelling)
    requires ParseVersion(s).Some?
    ensures sp.Valid() && sp.Text() == s && sp.Meaning() == ParseVersion(s).value
  {
    var r1 := ParseNumber(s).value.1;
    var r2 := ParseDottedNumber(r1).value.1;
    var r3 := ParseDottedNumber(r2).value.1;
    var a := ParsedNumberSplits(s);
    var b := ParsedNumberSplits(r1[1..]);
    var c := ParsedNumberSplits(r2[1..]);
    var pre := ParsedSuffixIsSpelled(r3);
    sp := Spelling(a, b, c, pre);
    DottedParts(a, b, c, s, r1, r2, r3);
    assert sp.Text() == s;
  }

  lemma {:induction false} ParsedSuffixIsSpelled(s: string) returns (pre: Option<string>)
    requires ParseSuffix(s).Some?
    ensures ParseSuffix(s) == Some(pre) && (pre.Some? ==> Grammatical(pre.value))
    ensures s == if pre.Some? then "-" + pre.value else ""
  {
    pre := ParseSuffix(s).value;
    if s != "" {
      assert s == [s[0]] + s[1..];
    }
  }

  lemma {:induction false} DottedParts(a: string, b: string, c: string, s: string, r1: string, r2: string, r3: string)
    requires s == a + r1
    requires r1 != "" && r1[0] == '.' && r1[1..] == b + r2
    requires r2 != "" && r2[0] == '.' && r2[1..] == c + r3
    ensures s == a + "." + b + "." + c + r3
  {
    assert r1 == "." + r1[1..] && r2 == "." + r2[1..];
  }

  /** The text with perhaps a `v` before it and perhaps a newline after it. */
  predicate Wraps(tag: string, text: string) {
    tag == text || tag == "v" + text || tag == text + "\n" || tag == "v" + text + "\n"
  }

  lemma {:induction false} SpellingEnds(sp: Spelling)
    requires sp.Valid()
    ensures var s := sp.Text(); s != "" && IsDigit(s[0]) && IsAlnum(s[|s| - 1])
  {
    if sp.prerelease.Some? {
      GrammaticalEnds(sp.prerelease.value);
    }
  }

  lemma {:induction false} UnwrapsTo(tag: string, text: string)
    requires text != "" && IsDigit(text[0]) && IsAlnum(text[|text| - 1])
    ensures WithoutV(WithoutNewline(tag)) == text <==> Wraps(tag, text)
  {
    var s := WithoutNewline(tag);
    assert s == tag || tag == s + "\n";
    assert WithoutV(s) == s || s == "v" + WithoutV(s);
    assert ("v" + text)[1..] == text && (text + "\n")[..|text|] == text;
    assert ("v" + text + "\n")[..|text| + 1] == "v" + text;
  }

  /**
   A tag is accepted, as version v, exactly when it is a spelling of v with at
   most one `v` before it and at most one newline after it.
   */
  lemma {:induction false} ParseReadsPattern(tag: string, v: SemVer)
    ensures Parse(tag) == Some(v) <==>
              exists sp: Spelling :: sp.Valid() && sp.Meaning() == v && Wraps(tag, sp.Text())
  {
    var s := WithoutV(WithoutNewline(tag));
    if ParseVersion(s).Some? {
      var sp := ParsedIsSpelled(s);
      SpellingEnds(sp);
      UnwrapsTo(tag, s);
    }
    if sp: Spelling :| sp.Valid() && sp.Meaning() == v && Wraps(tag, sp.Text()) {
      SpellingEnds(sp);
      UnwrapsTo(tag, sp.Text());
      SpellingParses(sp);
    }
  }

  lemma {:induction false} ParseVersionOf(v: SemVer)
    requires WellFormed(v)
    ensures ParseVersion(ToString(v)) == Some(v)
  {
    var sp := Spelling(Decimal(v.major), Decimal(v.minor), Decimal(v.patch), v.prerelease);
    NumberOfDecimal(v.major);
    NumberOfDecimal(v.minor);
    NumberOfDecimal(v.patch);
    if v.prerelease.Some? {
      GrammaticalEnds(v.prerelease.value);
    }
    SpellingParses(sp);
  }

  lemma {:induction false} PrintedEnds(v: SemVer)
    requires WellFormed(v)
    ensures var s := ToString(v); IsDigit(s[0]) && IsAlnum(s[|s| - 1])
  {
    if v.prerelease.Some? {
      GrammaticalEnds(v.prerelease.value);
    }
  }

  lemma {:induction false} ParseIsWellFormed(tag: string)
    ensures Parse(tag).Some? ==> WellFormed(Parse(tag).value)
  {
  }

  /** A text that starts with a digit and ends with no newline parses alike with and without a `v`. */
  lemma {:induction false} ParsePrinted(s: string)
    requires s != "" && IsDigit(s[0]) && IsAlnum(s[|s| - 1])
    ensures WithoutV(WithoutNewline(s)) == s && WithoutV(WithoutNewline("v" + s)) == s
  {
    assert ("v" + s)[1..] == s;
  }

  /** Printing and parsing undo each other exactly for versions whose prerelease is absent or grammatical. */
  lemma {:induction false} RoundTrip(v: SemVer)
    ensures Parse(ToString(v)) == Some(v) <==> WellFormed(v)
    ensures Parse(Tag(v)) == Some(v) <==> WellFormed(v)
  {
    ParseIsWellFormed(ToString(v));
    ParseIsWellFormed(Tag(v));
    if WellFormed(v) {
      ParseVersionOf(v);
      PrintedEnds(v);
      ParsePrinted(ToString(v));
    }
  }

  /** Whatever was accepted, with a `v`, leading zeros or a final newline, parses to the same version once printed. */
  lemma {:induction false} ParseNormalises(tag: string)
    requires Parse(tag).Some?
    ensures Parse(ToString(Parse(tag).value)) == Parse(tag)
  {
    ParseIsWellFormed(tag);
    RoundTrip(Parse(tag).value);
  }

  // ----- What printing gives

  /** A numeral has no leading zero. */
  lemma {:induction false} DecimalIsCanonical(n: nat)
    ensures Decimal(n)[0] == '0' ==> n == 0 && Decimal(n) == "0"
    decreases n
  {
    if n >= 10 {
      DecimalIsCanonical(n / 10);
    }
  }

  predicate Canonical(numeral: string) {
    AllDigits(numeral) && (numeral[0] == '0' ==> numeral == "0")
  }

  /** The printed form is the spelling of the version without leading zeros, and a tag is that after a `v`. */
  lemma {:induction false} PrintsCanonically(v: SemVer) returns (sp: Spelling)
    requires WellFormed(v)
    ensures sp.Valid() && Canonical(sp.major) && Canonical(sp.minor) && Canonical(sp.patch)
    ensures sp.Meaning() == v && ToString(v) == sp.Text() && Tag(v) == "v" + sp.Text()
  {
    sp := Spelling(Decimal(v.major), Decimal(v.minor), Decimal(v.patch), v.prerelease);
    NumberOfDecimal(v.major);
    NumberOfDecimal(v.minor);
    NumberOfDecimal(v.patch);
    DecimalIsCanonical(v.major);
    DecimalIsCanonical(v.minor);
    DecimalIsCanonical(v.patch);
    if v.prerelease.Some? {
      GrammaticalEnds(v.prerelease.value);
    }
  }

  /** What digits mean, by the position of the last one. */
  lemma {:induction false} NumberIsPositional(digits: string, last: char)
    requires (forall i :: 0 <= i < |digits| ==> IsDigit(digits[i])) && '0' <= last <= '9'
    ensures Number("") == 0
    ensures Number(digits + [last]) == 10 * Number(digits) + (last as int - '0' as int)
  {
    assert (digits + [last])[..|digits|] == digits;
  }

  // ----- Bumping

  function BumpMajor(v: SemVer): SemVer {
    SemVer(v.major + 1, 0, 0, None)
  }

  function BumpMinor(v: SemVer): SemVer {
    SemVer(v.major, v.minor + 1, 0, None)
  }

  function BumpPatch(v: SemVer): SemVer {
    SemVer(v.major, v.minor, v.patch + 1, None)
  }

  /** The prerelease already counts under this prefix. */
  predicate Continues(v: SemVer, prefix: string) {
    v.prerelease.Some? && v.prerelease.value != "" && prefix + "." <= v.prerelease.value
  }

  function LastPart(pre: string): string {
    Split(pre)[|Split(pre)| - 1]
  }

  /** None stands for the ValueError of a last identifier that is no number. */
  function BumpPrerelease(v: SemVer, prefix: string): Option<SemVer> {
    if Continues(v, prefix) then
      if AllDigits(LastPart(v.prerelease.value)) then
        Some(v.(prerelease := Some(prefix + "." + Decimal(Number(LastPart(v.prerelease.value)) + 1))))
      else None
    else Some(BumpPatch(v).(prerelease := Some(prefix + ".1")))
  }

  datatype Bump = Major | Minor | Patch | Prerelease(prefix: string)

  function Apply(v: SemVer, b: Bump): Option<SemVer> {
    match b
    case Major => Some(BumpMajor(v))
    case Minor => Some(BumpMinor(v))
    case Patch => Some(BumpPatch(v))
    case Prerelease(prefix) => BumpPrerelease(v, prefix)
  }
}
