/**
 * Ruby String comparison (`<=>`, bytewise, i.e. by code point) and
 * ActiveSupport's `blank?` on strings.
 */
module Strings {

  /** `a < b` in Ruby's lexicographic String order. */
  predicate Lt(a: string, b: string)
    decreases |a|
  {
    if |a| == 0 then |b| > 0
    else if |b| == 0 then false
    else if a[0] != b[0] then a[0] < b[0]
    else Lt(a[1..], b[1..])
  }

  lemma {:induction false} LtIrreflexive(a: string)
    ensures !Lt(a, a)
    decreases |a|
  {
    if |a| > 0 { LtIrreflexive(a[1..]); }
  }

  lemma {:induction false} LtTransitive(a: string, b: string, c: string)
    requires Lt(a, b) && Lt(b, c)
    ensures Lt(a, c)
    decreases |a|
  {
    if |a| > 0 && a[0] == b[0] && b[0] == c[0] {
      LtTransitive(a[1..], b[1..], c[1..]);
    }
  }

  /** Ruby's `<=>` on two strings is total and antisymmetric. */
  lemma {:induction false} LtTrichotomy(a: string, b: string)
    ensures a == b || Lt(a, b) || Lt(b, a)
    ensures !(Lt(a, b) && Lt(b, a))
    decreases |a|
  {
    if |a| > 0 && |b| > 0 && a[0] == b[0] {
      LtTrichotomy(a[1..], b[1..]);
      if a[1..] == b[1..] {
        assert a == [a[0]] + a[1..] && b == [b[0]] + b[1..];
      }
    }
  }

  /** Appending characters to `k` never moves it below anything `k` was above. */
  lemma {:induction false} AboveStaysAbove(lo: string, k: string, s: string)
    requires Lt(lo, k)
    ensures Lt(lo, k + s)
    decreases |lo|
  {
    if |lo| > 0 && lo[0] == k[0] {
      assert (k + s)[1..] == k[1..] + s;
      AboveStaysAbove(lo[1..], k[1..], s);
    }
  }

  /**
   * Appending characters to `k` keeps it below `hi` as long as `k` is not a
   * prefix of `hi`: the first difference decides the comparison.
   */
  lemma {:induction false} BelowStaysBelow(k: string, hi: string, s: string)
    requires Lt(k, hi) && !(k <= hi)
    ensures Lt(k + s, hi)
    decreases |k|
  {
    assert |k| > 0;
    if k[0] == hi[0] {
      assert (k + s)[1..] == k[1..] + s;
      BelowStaysBelow(k[1..], hi[1..], s);
    }
  }

  /** A key is never above one of its own extensions. */
  lemma {:induction false} ExtensionNotBelow(k: string, s: string)
    ensures !Lt(k + s, k)
    ensures s != [] ==> Lt(k, k + s)
    decreases |k|
  {
    if |k| > 0 {
      assert (k + s)[1..] == k[1..] + s;
      ExtensionNotBelow(k[1..], s);
    }
  }

  /** The characters Onigmo's `[[:space:]]` matches. */
  predicate IsSpace(c: char)
  {
    c == ' ' || c == '\t' || c == '\n' || c == '\r' || c == '\U{0B}' || c == '\U{0C}'
    || c == '\U{85}' || c == '\U{A0}' || c == '\U{1680}'
    || ('\U{2000}' <= c <= '\U{200A}')
    || c == '\U{2028}' || c == '\U{2029}' || c == '\U{202F}' || c == '\U{205F}' || c == '\U{3000}'
  }

  /** ActiveSupport `String#blank?`: empty or only whitespace. */
  predicate Blank(s: string)
  {
    forall i :: 0 <= i < |s| ==> IsSpace(s[i])
  }
}
