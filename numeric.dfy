/** Sums, means and Python's `int()` truncation over exact reals. */
module Numeric {

  function Sum(xs: seq<real>): real {
    if xs == [] then 0.0 else Sum(xs[..|xs| - 1]) + xs[|xs| - 1]
  }

  /** The arithmetic mean of a non-empty sequence. */
  function Mean(xs: seq<real>): real
    requires |xs| > 0
  {
    Sum(xs) / |xs| as real
  }

  /** `int(x)`: truncation toward zero. */
  function Trunc(x: real): (r: int)
    ensures x >= 0.0 ==> r == x.Floor
    ensures x < 0.0 ==> r == -((-x).Floor)
  {
    if x >= 0.0 then x.Floor else -((-x).Floor)
  }

  function MinReal(a: real, b: real): (r: real)
    ensures r <= a && r <= b && (r == a || r == b)
  {
    if a <= b then a else b
  }

  lemma {:induction false} SumConstant(xs: seq<real>, c: real)
    requires forall i :: 0 <= i < |xs| ==> xs[i] == c
    ensures Sum(xs) == |xs| as real * c
  {
    if xs != [] {
      SumConstant(xs[..|xs| - 1], c);
    }
  }

  lemma {:induction false} SumBounds(xs: seq<real>, lo: real, hi: real)
    requires forall i :: 0 <= i < |xs| ==> lo <= xs[i] <= hi
    ensures |xs| as real * lo <= Sum(xs) <= |xs| as real * hi
  {
    if xs != [] {
      SumBounds(xs[..|xs| - 1], lo, hi);
    }
  }

  /** The mean of values between `lo` and `hi` lies between them too. */
  lemma MeanBounds(xs: seq<real>, lo: real, hi: real)
    requires |xs| > 0
    requires forall i :: 0 <= i < |xs| ==> lo <= xs[i] <= hi
    ensures lo <= Mean(xs) <= hi
  {
    SumBounds(xs, lo, hi);
    var n := |xs| as real;
    DivideBounds(Sum(xs), n, lo, hi);
  }

  /** Positions of a smallest and a largest element. */
  lemma {:induction false} Extremes(xs: seq<real>) returns (lo: nat, hi: nat)
    requires |xs| > 0
    ensures lo < |xs| && hi < |xs|
    ensures forall i :: 0 <= i < |xs| ==> xs[lo] <= xs[i] <= xs[hi]
  {
    if |xs| == 1 {
      return 0, 0;
    }
    var last := |xs| - 1;
    lo, hi := Extremes(xs[..last]);
    assert forall i :: 0 <= i < last ==> xs[i] == xs[..last][i];
    if xs[last] < xs[lo] {
      lo := last;
    }
    if xs[last] > xs[hi] {
      hi := last;
    }
  }

  /** The mean is at least one element and at most another. */
  lemma MeanWithinRange(xs: seq<real>)
    requires |xs| > 0
    ensures exists i :: 0 <= i < |xs| && xs[i] <= Mean(xs)
    ensures exists j :: 0 <= j < |xs| && Mean(xs) <= xs[j]
  {
    var lo, hi := Extremes(xs);
    MeanBounds(xs, xs[lo], xs[hi]);
  }

  lemma DivideBounds(s: real, n: real, lo: real, hi: real)
    requires n > 0.0 && n * lo <= s <= n * hi
    ensures lo <= s / n <= hi
  {
  }
}
