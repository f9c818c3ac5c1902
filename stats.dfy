/** Sums, weighted sums, minima and maxima of real sequences, built over
    prefixes so that they follow the accumulating loops of the source, and
    the two-argument `min` and `max`. */
module Stats {

  /** `min` and `max` of two integers, and `max` of two reals. */
  function Min(a: int, b: int): int { if a <= b then a else b }
  function Max(a: int, b: int): int { if a >= b then a else b }
  function RealMax(a: real, b: real): real { if a >= b then a else b }

  /** xs[0] + ... + xs[n - 1]. */
  function SumTo(xs: seq<real>, n: nat): real
    requires n <= |xs|
  {
    if n == 0 then 0.0 else SumTo(xs, n - 1) + xs[n - 1]
  }

  function Sum(xs: seq<real>): real
  {
    SumTo(xs, |xs|)
  }

  /** ws[0] * xs[0] + ... + ws[n - 1] * xs[n - 1]. */
  function DotTo(ws: seq<real>, xs: seq<real>, n: nat): real
    requires |ws| == |xs| && n <= |xs|
  {
    if n == 0 then 0.0 else DotTo(ws, xs, n - 1) + ws[n - 1] * xs[n - 1]
  }

  function Dot(ws: seq<real>, xs: seq<real>): real
    requires |ws| == |xs|
  {
    DotTo(ws, xs, |xs|)
  }

  /** The smallest of xs[0 .. n - 1]. */
  function MinTo(xs: seq<real>, n: nat): (m: real)
    requires 0 < n <= |xs|
    ensures m in xs
    ensures forall k :: 0 <= k < n ==> m <= xs[k]
  {
    if n == 1 then xs[0]
    else
      var m := MinTo(xs, n - 1);
      if xs[n - 1] < m then xs[n - 1] else m
  }

  /** The largest of xs[0 .. n - 1]. */
  function MaxTo(xs: seq<real>, n: nat): (m: real)
    requires 0 < n <= |xs|
    ensures m in xs
    ensures forall k :: 0 <= k < n ==> xs[k] <= m
  {
    if n == 1 then xs[0]
    else
      var m := MaxTo(xs, n - 1);
      if xs[n - 1] > m then xs[n - 1] else m
  }

  function MinOf(xs: seq<real>): (m: real)
    requires xs != []
    ensures m in xs
    ensures forall k :: 0 <= k < |xs| ==> m <= xs[k]
  {
    MinTo(xs, |xs|)
  }

  function MaxOf(xs: seq<real>): (m: real)
    requires xs != []
    ensures m in xs
    ensures forall k :: 0 <= k < |xs| ==> xs[k] <= m
  {
    MaxTo(xs, |xs|)
  }

  /** The arithmetic mean, as numpy's `mean` computes it on a non-empty list. */
  function Mean(xs: seq<real>): real
    requires xs != []
  {
    Sum(xs) / (|xs| as real)
  }

  /** Dividing by a positive number keeps bounds that hold after multiplying by it. */
  lemma DivBounds(d: real, w: real, lo: real, hi: real)
    requires 0.0 < w && lo * w <= d <= hi * w
    ensures lo <= d / w <= hi
  {
    assert d / w * w == d;
  }

  /** Every common bound of the first n values, times n, bounds their sum. */
  lemma {:induction false} SumToBounds(xs: seq<real>, n: nat, lo: real, hi: real)
    requires n <= |xs|
    requires forall k :: 0 <= k < n ==> lo <= xs[k] <= hi
    ensures lo * (n as real) <= SumTo(xs, n) <= hi * (n as real)
  {
    if n > 0 {
      SumToBounds(xs, n - 1, lo, hi);
      StepBounds(SumTo(xs, n - 1), (n - 1) as real, xs[n - 1], lo, hi, SumTo(xs, n), n as real);
    }
  }

  /** One accumulation step of SumToBounds. */
  lemma StepBounds(d: real, s: real, x: real, lo: real, hi: real, d': real, s': real)
    requires lo * s <= d <= hi * s && lo <= x <= hi
    requires d' == d + x && s' == s + 1.0
    ensures lo * s' <= d' <= hi * s'
  {
  }

  /** A weighted sum with positive weights is at least the smallest value
      times the total weight. */
  lemma {:induction false} DotLower(ws: seq<real>, xs: seq<real>, n: nat, lo: real)
    requires |ws| == |xs| && n <= |xs|
    requires forall k :: 0 <= k < n ==> 0.0 < ws[k] && lo <= xs[k]
    ensures lo * SumTo(ws, n) <= DotTo(ws, xs, n)
  {
    if n > 0 {
      DotLower(ws, xs, n - 1, lo);
      StepLower(DotTo(ws, xs, n - 1), SumTo(ws, n - 1), ws[n - 1], xs[n - 1], lo,
                DotTo(ws, xs, n), SumTo(ws, n));
    }
  }

  /** A weighted sum with positive weights is at most the largest value
      times the total weight. */
  lemma {:induction false} DotUpper(ws: seq<real>, xs: seq<real>, n: nat, hi: real)
    requires |ws| == |xs| && n <= |xs|
    requires forall k :: 0 <= k < n ==> 0.0 < ws[k] && xs[k] <= hi
    ensures DotTo(ws, xs, n) <= hi * SumTo(ws, n)
  {
    if n > 0 {
      DotUpper(ws, xs, n - 1, hi);
      StepUpper(DotTo(ws, xs, n - 1), SumTo(ws, n - 1), ws[n - 1], xs[n - 1], hi,
                DotTo(ws, xs, n), SumTo(ws, n));
    }
  }

  /** One accumulation step of DotLower: d' and s' are the totals after adding weight w on value x. */
  lemma StepLower(d: real, s: real, w: real, x: real, lo: real, d': real, s': real)
    requires lo * s <= d && 0.0 < w && lo <= x
    requires d' == d + w * x && s' == s + w
    ensures lo * s' <= d'
  {
    assert (x - lo) * w >= 0.0;
  }

  /** One accumulation step of DotUpper. */
  lemma StepUpper(d: real, s: real, w: real, x: real, hi: real, d': real, s': real)
    requires d <= hi * s && 0.0 < w && x <= hi
    requires d' == d + w * x && s' == s + w
    ensures d' <= hi * s'
  {
    assert (hi - x) * w >= 0.0;
  }

  /** Positive weights have a positive total. */
  lemma {:induction false} SumToPositive(ws: seq<real>, n: nat)
    requires 0 < n <= |ws|
    requires forall k :: 0 <= k < n ==> 0.0 < ws[k]
    ensures 0.0 < SumTo(ws, n)
  {
    if n > 1 {
      SumToPositive(ws, n - 1);
    }
  }

  lemma SumPositive(ws: seq<real>)
    requires ws != []
    requires forall k :: 0 <= k < |ws| ==> 0.0 < ws[k]
    ensures 0.0 < Sum(ws)
  {
    SumToPositive(ws, |ws|);
  }

  /** The weighted mean with positive weights keeps every common bound of the values. */
  lemma WeightedMeanBounds(ws: seq<real>, xs: seq<real>, lo: real, hi: real)
    requires |ws| == |xs| && xs != []
    requires forall k :: 0 <= k < |ws| ==> 0.0 < ws[k]
    requires forall k :: 0 <= k < |xs| ==> lo <= xs[k] <= hi
    ensures 0.0 < Sum(ws)
    ensures lo <= Dot(ws, xs) / Sum(ws) <= hi
  {
    SumPositive(ws);
    DotLower(ws, xs, |xs|, lo);
    DotUpper(ws, xs, |xs|, hi);
    DivBounds(Dot(ws, xs), Sum(ws), lo, hi);
  }

  /** The mean lies between the minimum and the maximum. */
  lemma MeanBounds(xs: seq<real>)
    requires xs != []
    ensures MinOf(xs) <= Mean(xs) <= MaxOf(xs)
  {
    var lo, hi := MinOf(xs), MaxOf(xs);
    SumToBounds(xs, |xs|, lo, hi);
    DivBounds(Sum(xs), |xs| as real, lo, hi);
  }
}
