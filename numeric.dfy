/** Sums and means of real sequences, shared by the statistics and the geometry. */
module Numeric {

  function Abs(v: real): (r: real)
    ensures r >= 0.0 && (r == v || r == -v)
  {
    if v < 0.0 then -v else v
  }

  /** `sum(xs)`, accumulated left to right. */
  function SumR(xs: seq<real>): real
  {
    if |xs| == 0 then 0.0 else SumR(xs[..|xs| - 1]) + xs[|xs| - 1]
  }

  /** `xs.mean()` */
  function MeanR(xs: seq<real>): real
    requires |xs| > 0
  {
    SumR(xs) / |xs| as real
  }

  lemma {:induction false} SumOfZeros(xs: seq<real>)
    requires forall k :: 0 <= k < |xs| ==> xs[k] == 0.0
    ensures SumR(xs) == 0.0
  {
    if |xs| > 0 {
      SumOfZeros(xs[..|xs| - 1]);
    }
  }

  /** The sum of a concatenation is the sum of the parts. */
  lemma {:induction false} SumAppend(a: seq<real>, b: seq<real>)
    ensures SumR(a + b) == SumR(a) + SumR(b)
    decreases |b|
  {
    if |b| > 0 {
      assert (a + b)[..|a + b| - 1] == a + b[..|b| - 1];
      SumAppend(a, b[..|b| - 1]);
    } else {
      assert a + b == a;
    }
  }

  /** Moving the first entry to the end leaves the sum unchanged. */
  lemma SumRotate(xs: seq<real>)
    requires |xs| > 0
    ensures SumR(xs[1..] + [xs[0]]) == SumR(xs)
  {
    SumAppend(xs[1..], [xs[0]]);
    SumAppend([xs[0]], xs[1..]);
    assert [xs[0]] + xs[1..] == xs;
    assert SumR([xs[0]]) == SumR([]) + xs[0];
  }
}
