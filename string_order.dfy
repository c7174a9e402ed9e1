/** TrainDBPrepareImpl.compareStrings, the comparator of string MIN and MAX,
    and the order it induces. */
module StringOrder {

  /** The difference of the character codes at the first index where the two
      strings differ; when one is a prefix of the other, the difference of
      the lengths. */
  function CompareStrings(a: string, b: string): (r: int)
    ensures r == 0 <==> a == b
  {
    if a == [] || b == [] then |a| - |b|
    else if a[0] != b[0] then a[0] as int - b[0] as int
    else CompareStrings(a[1..], b[1..])
  }

  /** Lexicographic order stated independently of the comparator: after a
      common prefix of length k, either `a` ends while `b` goes on, or `a`'s
      next character is smaller. */
  ghost predicate LexLess(a: string, b: string)
  {
    exists k :: 0 <= k <= |a| && k <= |b| && a[..k] == b[..k] && Diverges(a, b, k)
  }

  ghost predicate Diverges(a: string, b: string, k: nat)
  {
    (k == |a| && k < |b|) || (k < |a| && k < |b| && a[k] < b[k])
  }

  lemma {:induction false} Antisymmetric(a: string, b: string)
    ensures CompareStrings(a, b) == -CompareStrings(b, a)
  {
    if a != [] && b != [] && a[0] == b[0] {
      Antisymmetric(a[1..], b[1..]);
    }
  }

  /** When one string is a prefix of the other the comparator returns the
      length difference, not a sign. */
  lemma {:induction false} PrefixComparesByLength(a: string, b: string)
    requires |a| <= |b| && b[..|a|] == a
    ensures CompareStrings(a, b) == |a| - |b|
  {
    if a != [] {
      assert a[0] == b[0];
      assert b[1..][..|a| - 1] == a[1..];
      PrefixComparesByLength(a[1..], b[1..]);
    }
  }

  /** The sign of the comparator is exactly lexicographic order. */
  lemma {:induction false} NegativeIffLexLess(a: string, b: string)
    ensures CompareStrings(a, b) < 0 <==> LexLess(a, b)
  {
    if a == [] {
      if b != [] {
        assert Diverges(a, b, 0) && a[..0] == b[..0];
      } else {
        forall k | 0 <= k <= |a| && k <= |b| ensures !Diverges(a, b, k) { }
      }
    } else if b == [] {
      forall k | 0 <= k <= |a| && k <= |b| ensures !Diverges(a, b, k) { }
    } else if a[0] != b[0] {
      if a[0] < b[0] {
        assert a[..0] == b[..0] && Diverges(a, b, 0);
      } else {
        forall k | 0 <= k <= |a| && k <= |b| && a[..k] == b[..k] ensures !Diverges(a, b, k) { }
      }
    } else {
      NegativeIffLexLess(a[1..], b[1..]);
      if LexLess(a[1..], b[1..]) {
        var k :| 0 <= k <= |a[1..]| && k <= |b[1..]| && a[1..][..k] == b[1..][..k] && Diverges(a[1..], b[1..], k);
        assert a[..k + 1] == [a[0]] + a[1..][..k];
        assert b[..k + 1] == [b[0]] + b[1..][..k];
        assert Diverges(a, b, k + 1);
      }
      if LexLess(a, b) {
        var k :| 0 <= k <= |a| && k <= |b| && a[..k] == b[..k] && Diverges(a, b, k);
        assert k > 0;
        assert a[1..][..k - 1] == a[..k][1..] == b[..k][1..] == b[1..][..k - 1];
        assert Diverges(a[1..], b[1..], k - 1);
      }
    }
  }

  lemma {:induction false} Transitive(a: string, b: string, c: string)
    requires CompareStrings(a, b) < 0 && CompareStrings(b, c) < 0
    ensures CompareStrings(a, c) < 0
  {
    if a != [] && b != [] && c != [] && a[0] == b[0] && b[0] == c[0] {
      Transitive(a[1..], b[1..], c[1..]);
    }
  }

  /** `a` is at most `b` in the comparator's order. */
  predicate AtMost(a: string, b: string)
  {
    CompareStrings(a, b) <= 0
  }

  lemma AtMostTransitive(a: string, b: string, c: string)
    requires AtMost(a, b) && AtMost(b, c)
    ensures AtMost(a, c)
  {
    if a == b || b == c {
    } else {
      Transitive(a, b, c);
    }
  }

  lemma AtMostTotal(a: string, b: string)
    ensures AtMost(a, b) || AtMost(b, a)
  {
    Antisymmetric(a, b);
  }
}
