/** Order preservation: `xs` is a subsequence of `ys` when `xs` can be
    obtained from `ys` by deleting elements without reordering the rest. */
module Subseq {

  predicate IsSubseq<T(==)>(xs: seq<T>, ys: seq<T>)
    decreases |ys|
  {
    if |xs| == 0 then true
    else if |ys| == 0 then false
    else (xs[0] == ys[0] && IsSubseq(xs[1..], ys[1..])) || IsSubseq(xs, ys[1..])
  }

  lemma {:induction false} SubseqRefl<T>(xs: seq<T>)
    ensures IsSubseq(xs, xs)
    decreases |xs|
  {
    if |xs| > 0 {
      SubseqRefl(xs[1..]);
    }
  }

  lemma {:induction false} EmptySubseq<T>(ys: seq<T>)
    ensures IsSubseq([], ys)
  {
  }

  /** Subsequences of the parts give a subsequence of the concatenation. */
  lemma {:induction false} SubseqAppend<T>(a: seq<T>, b: seq<T>, c: seq<T>, d: seq<T>)
    requires IsSubseq(a, b) && IsSubseq(c, d)
    ensures IsSubseq(a + c, b + d)
    decreases |b|
  {
    if |a| == 0 {
      assert a + c == c;
      SubseqSuffix(c, d, b);
    } else {
      assert |b| > 0;
      assert (b + d)[0] == b[0] && (b + d)[1..] == b[1..] + d;
      if a[0] == b[0] && IsSubseq(a[1..], b[1..]) {
        SubseqAppend(a[1..], b[1..], c, d);
        assert (a + c)[0] == a[0] && (a + c)[1..] == a[1..] + c;
      } else {
        SubseqAppend(a, b[1..], c, d);
      }
    }
  }

  /** Prepending elements to the longer sequence keeps a subsequence. */
  lemma {:induction false} SubseqSuffix<T>(c: seq<T>, d: seq<T>, p: seq<T>)
    requires IsSubseq(c, d)
    ensures IsSubseq(c, p + d)
    decreases |p|
  {
    if |p| == 0 {
      assert p + d == d;
    } else {
      SubseqSuffix(c, d, p[1..]);
      assert (p + d)[1..] == p[1..] + d;
    }
  }
}
