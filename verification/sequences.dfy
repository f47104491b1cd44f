/**
 Facts about sequences that the consumer model uses in more than one place:
 the subsequence relation and regrouping of concatenations.
 */
module Sequences {

  /** `a` is a subsequence of `b`: `b` with some elements removed and the
      rest left in their order. */
  predicate SubseqOf<T(==)>(a: seq<T>, b: seq<T>)
    decreases |b|
  {
    |a| == 0 ||
    (|b| > 0 && ((a[0] == b[0] && SubseqOf(a[1..], b[1..])) || SubseqOf(a, b[1..])))
  }

  /** Putting the same element in front of both sides keeps a subsequence. */
  lemma SubseqBoth<T>(h: T, a: seq<T>, b: seq<T>)
    requires SubseqOf(a, b)
    ensures SubseqOf([h] + a, [h] + b)
  {
    assert ([h] + a)[1..] == a;
    assert ([h] + b)[1..] == b;
  }

  /** An element in front of the longer side only keeps a subsequence. */
  lemma SubseqSkip<T>(h: T, a: seq<T>, b: seq<T>)
    requires SubseqOf(a, b)
    ensures SubseqOf(a, [h] + b)
  {
    assert ([h] + b)[1..] == b;
  }

  /** Prepending to a concatenation, regrouped. */
  lemma ConsAssoc<T>(h: T, a: seq<T>, b: seq<T>)
    ensures [h] + (a + b) == ([h] + a) + b
  {
  }

  /** A prefix of a subsequence is a subsequence. */
  lemma {:induction false} SubseqPrefix<T>(p: seq<T>, a: seq<T>, b: seq<T>)
    requires p <= a && SubseqOf(a, b)
    ensures SubseqOf(p, b)
    decreases |b|
  {
    if |p| > 0 {
      if a[0] == b[0] && SubseqOf(a[1..], b[1..]) {
        assert p[1..] <= a[1..];
        SubseqPrefix(p[1..], a[1..], b[1..]);
      } else {
        SubseqPrefix(p, a, b[1..]);
      }
    }
  }

  /** Regrouping after an element joins the back of the left part: if
      `d + f` is `(q + [p]) + a`, it is also `q + ([p] + a)`. */
  lemma SnocRegroup<T>(q: seq<T>, p: T, d: seq<T>, f: seq<T>, a: seq<T>)
    requires d + f == (q + [p]) + a
    ensures d + f == q + ([p] + a)
  {
  }

  /** Regrouping after the same element is put in front of both left
      parts of an equation between concatenations. */
  lemma ConsRegroup<T>(p: T, q: seq<T>, d: seq<T>, f: seq<T>, a: seq<T>)
    requires d + f == q + a
    ensures ([p] + d) + f == ([p] + q) + a
  {
    ConsAssoc(p, d, f);
    ConsAssoc(p, q, a);
  }
}
