/** Peak measures and peak normalisation of real-valued sequences, as numpy's
    `np.max`, `np.abs` and element-wise division are used by the audio
    feature extraction. */
module Normalization {

  function Abs(x: real): (r: real)
    ensures r >= 0.0
    ensures r == x || r == -x
  {
    if x < 0.0 then -x else x
  }

  /** `np.max(np.abs(xs))`: the largest magnitude of a non-empty sequence
      (numpy raises on an empty one). */
  function MaxAbs(xs: seq<real>): (r: real)
    requires |xs| > 0
    ensures forall i :: 0 <= i < |xs| ==> Abs(xs[i]) <= r
    ensures exists i :: 0 <= i < |xs| && Abs(xs[i]) == r
  {
    if |xs| == 1 then Abs(xs[0])
    else
      var m := MaxAbs(xs[..|xs| - 1]);
      assert forall i :: 0 <= i < |xs| - 1 ==> xs[..|xs| - 1][i] == xs[i];
      if Abs(xs[|xs| - 1]) > m then Abs(xs[|xs| - 1]) else m
  }

  /** `np.max(xs)`: the largest element of a non-empty sequence. */
  function Max(xs: seq<real>): (r: real)
    requires |xs| > 0
    ensures forall i :: 0 <= i < |xs| ==> xs[i] <= r
    ensures exists i :: 0 <= i < |xs| && xs[i] == r
  {
    if |xs| == 1 then xs[0]
    else
      var m := Max(xs[..|xs| - 1]);
      assert forall i :: 0 <= i < |xs| - 1 ==> xs[..|xs| - 1][i] == xs[i];
      if xs[|xs| - 1] > m then xs[|xs| - 1] else m
  }

  /** Every element divided by `p`. */
  function Scale(xs: seq<real>, p: real): (r: seq<real>)
    requires p > 0.0
    ensures |r| == |xs|
    ensures forall i :: 0 <= i < |xs| ==> r[i] * p == xs[i] && r[i] == xs[i] / p
  {
    seq(|xs|, i requires 0 <= i < |xs| => xs[i] / p)
  }

  ghost predicate AllZero(xs: seq<real>) {
    forall i :: 0 <= i < |xs| ==> xs[i] == 0.0
  }

  lemma CancelPositive(a: real, p: real)
    requires p > 0.0 && a * p == p
    ensures a == 1.0
  {
  }

  lemma CancelNegative(a: real, p: real)
    requires p > 0.0 && a * p == -p
    ensures a == -1.0
  {
  }

  /** One element divided by a positive bound of its magnitude has magnitude
      at most 1, and exactly 1 when it reaches the bound. */
  lemma DivideByBound(x: real, p: real)
    requires p > 0.0
    requires Abs(x) <= p
    ensures Abs(x / p) <= 1.0
    ensures Abs(x) == p ==> Abs(x / p) == 1.0
  {
    DivisionInverse(x, p);
    BoundedQuotient(x / p, x, p);
  }

  /** A quotient of a value by a bound of its magnitude, stated without
      division. */
  lemma BoundedQuotient(q: real, x: real, p: real)
    requires p > 0.0 && q * p == x
    requires Abs(x) <= p
    ensures Abs(q) <= 1.0
    ensures Abs(x) == p ==> Abs(q) == 1.0
  {
    assert -p <= x <= p;
    QuotientNotAbove(q, x, p);
    QuotientNotBelow(q, x, p);
    if x == p {
      CancelPositive(q, p);
    } else if x == -p {
      CancelNegative(q, p);
    }
  }

  lemma QuotientNotAbove(q: real, x: real, p: real)
    requires p > 0.0 && q * p == x && x <= p
    ensures q <= 1.0
  {
    if q > 1.0 {
      ProductAbove(q, p);
    }
  }

  lemma QuotientNotBelow(q: real, x: real, p: real)
    requires p > 0.0 && q * p == x && -p <= x
    ensures q >= -1.0
  {
    if q < -1.0 {
      ProductBelow(q, p);
    }
  }

  lemma ProductAbove(q: real, p: real)
    requires q > 1.0 && p > 0.0
    ensures q * p > p
  {
  }

  lemma ProductBelow(q: real, p: real)
    requires q < -1.0 && p > 0.0
    ensures q * p < -p
  {
  }

  lemma DivisionInverse(x: real, p: real)
    requires p > 0.0
    ensures (x / p) * p == x
  {
  }


  /** Dividing by the peak magnitude bounds every element by 1 and brings the
      peak element to exactly 1. */
  lemma ScaleByPeak(xs: seq<real>, p: real)
    requires p > 0.0
    requires forall i :: 0 <= i < |xs| ==> Abs(xs[i]) <= p
    requires exists i :: 0 <= i < |xs| && Abs(xs[i]) == p
    ensures forall i :: 0 <= i < |xs| ==> Abs(Scale(xs, p)[i]) <= 1.0
    ensures exists i :: 0 <= i < |xs| && Abs(Scale(xs, p)[i]) == 1.0
  {
    var r := Scale(xs, p);
    forall i | 0 <= i < |xs|
      ensures Abs(r[i]) <= 1.0
    {
      DivideByBound(xs[i], p);
    }
    var j :| 0 <= j < |xs| && Abs(xs[j]) == p;
    DivideByBound(xs[j], p);
    assert Abs(r[j]) == 1.0;
  }

  /** Dividing non-negative values by a positive number keeps them non-negative. */
  lemma ScaleKeepsSign(xs: seq<real>, p: real)
    requires p > 0.0
    requires forall i :: 0 <= i < |xs| ==> xs[i] >= 0.0
    ensures forall i :: 0 <= i < |xs| ==> Scale(xs, p)[i] >= 0.0
  {
    var r := Scale(xs, p);
    forall i | 0 <= i < |xs|
      ensures r[i] >= 0.0
    {
      assert r[i] * p == xs[i];
    }
  }

  /** Multiplying by a non-negative factor keeps the order, strictly so for
      a positive factor. */
  lemma MultiplyMonotone(x: real, y: real, c: real)
    requires x <= y && c >= 0.0
    ensures x * c <= y * c
    ensures x < y && c > 0.0 ==> x * c < y * c
  {
  }

  /** Waveform normalisation: divide by the peak magnitude when it is
      positive, otherwise (silence) return the samples unchanged. */
  function PeakNormalize(xs: seq<real>): (r: seq<real>)
    requires |xs| > 0
    ensures |r| == |xs|
    ensures forall i :: 0 <= i < |r| ==> Abs(r[i]) <= 1.0
    ensures MaxAbs(xs) > 0.0 ==> exists i :: 0 <= i < |r| && Abs(r[i]) == 1.0
    ensures MaxAbs(xs) > 0.0 ==> r == Scale(xs, MaxAbs(xs))
    ensures MaxAbs(xs) == 0.0 ==> r == xs && AllZero(r)
  {
    var p := MaxAbs(xs);
    if p > 0.0 then
      ScaleByPeak(xs, p);
      Scale(xs, p)
    else
      xs
  }

  /** Spectrum normalisation: divide by the largest element when it is
      positive, otherwise return the values unchanged. */
  function MaxNormalize(xs: seq<real>): (r: seq<real>)
    requires |xs| > 0
    requires forall i :: 0 <= i < |xs| ==> xs[i] >= 0.0
    ensures |r| == |xs|
    ensures forall i :: 0 <= i < |r| ==> 0.0 <= r[i] <= 1.0
    ensures Max(xs) > 0.0 ==> exists i :: 0 <= i < |r| && r[i] == 1.0
    ensures Max(xs) > 0.0 ==> r == Scale(xs, Max(xs))
    ensures Max(xs) == 0.0 ==> r == xs && AllZero(r)
  {
    var p := Max(xs);
    if p > 0.0 then
      assert forall i :: 0 <= i < |xs| ==> Abs(xs[i]) == xs[i];
      ScaleByPeak(xs, p);
      ScaleKeepsSign(xs, p);
      Scale(xs, p)
    else
      xs
  }

  /** Each normalised element is the input element divided by the peak. */
  lemma PeakNormalizeAt(xs: seq<real>, i: nat)
    requires i < |xs|
    requires MaxAbs(xs) > 0.0
    ensures PeakNormalize(xs)[i] == xs[i] / MaxAbs(xs)
  {
    assert PeakNormalize(xs) == Scale(xs, MaxAbs(xs));
  }
}
