/** The order Python gives strings: character by character. */
module Text {

  /** a sorts strictly before b. */
  predicate TextLess(a: string, b: string) {
    b != "" && (a == "" || a[0] < b[0] || (a[0] == b[0] && TextLess(a[1..], b[1..])))
  }

  lemma {:induction false} TextTransitive(a: string, b: string, c: string)
    requires TextLess(a, b) && TextLess(b, c)
    ensures TextLess(a, c)
    decreases |a|
  {
    if a != "" && a[0] == b[0] && b[0] == c[0] {
      TextTransitive(a[1..], b[1..], c[1..]);
    }
  }

  lemma {:induction false} TextIrreflexive(a: string)
    ensures !TextLess(a, a)
    decreases |a|
  {
    if a != "" {
      TextIrreflexive(a[1..]);
    }
  }

  lemma {:induction false} TextTotal(a: string, b: string)
    requires !TextLess(a, b) && !TextLess(b, a)
    ensures a == b
    decreases |a|
  {
    if a != "" && b != "" {
      TextTotal(a[1..], b[1..]);
      assert a == [a[0]] + a[1..] && b == [b[0]] + b[1..];
    }
  }

  /** a and b agree up to i, and there a ends or has the lower character. */
  predicate LessAt(a: string, b: string, i: nat) {
    i <= |a| && i < |b| && a[..i] == b[..i] && (i == |a| || a[i] < b[i])
  }

  lemma {:induction false} TextLessMeans(a: string, b: string)
    ensures TextLess(a, b) <==> exists i: nat :: LessAt(a, b, i)
    decreases |a|
  {
    if a == "" || b == "" || a[0] < b[0] {
      assert b != "" ==> a[..0] == b[..0] && LessAt(a, b, 0);
    } else {
      TextLessMeans(a[1..], b[1..]);
      if i: nat :| LessAt(a[1..], b[1..], i) && a[0] == b[0] {
        assert a[..i + 1] == [a[0]] + a[1..][..i] && b[..i + 1] == [b[0]] + b[1..][..i];
        assert LessAt(a, b, i + 1);
      }
      if i: nat :| LessAt(a, b, i) {
        LessAtTail(a, b, i);
      }
    }
  }

  lemma {:induction false} LessAtTail(a: string, b: string, i: nat)
    requires a != "" && b != "" && !(a[0] < b[0]) && LessAt(a, b, i)
    ensures i > 0 && a[0] == b[0] && LessAt(a[1..], b[1..], i - 1)
  {
    assert i > 0 ==> a[..i][0] == a[0] && b[..i][0] == b[0];
    assert i > 0 ==> a[1..][..i - 1] == a[..i][1..] && b[1..][..i - 1] == b[..i][1..];
  }
}
