/** The raw pseudo-depth of each spot: the per-channel population variance of g
    across the spots (g_var) and the variance-weighted combination of each spot's
    three channel means (z_raw). */
module Depth {
  import opened Raster

  /** Why no z_raw can be produced. */
  datatype DepthError =
    | NoSpots               // g has no rows: its variances are undefined
    | UniformChannelMeans   // every g_var[c] is zero, so the weights sum to zero

  datatype Result<T> = Ok(value: T) | Err(error: DepthError)

  function Sum(xs: seq<real>): real
  {
    if xs == [] then 0.0 else xs[0] + Sum(xs[1..])
  }

  function Mean(xs: seq<real>): real
    requires |xs| > 0
  {
    Sum(xs) / |xs| as real
  }

  function SquaredDeviations(xs: seq<real>, m: real): seq<real>
  {
    seq(|xs|, i requires 0 <= i < |xs| => (xs[i] - m) * (xs[i] - m))
  }

  /** Population variance (ddof = 0): the mean squared deviation from the mean. */
  function Variance(xs: seq<real>): real
    requires |xs| > 0
  {
    Mean(SquaredDeviations(xs, Mean(xs)))
  }

  /** A sum of non-negative terms is non-negative, and zero only when every term is. */
  lemma {:induction false} SumOfNonNegative(xs: seq<real>)
    requires forall i :: 0 <= i < |xs| ==> xs[i] >= 0.0
    ensures Sum(xs) >= 0.0
    ensures Sum(xs) == 0.0 <==> forall i :: 0 <= i < |xs| ==> xs[i] == 0.0
  {
    if xs != [] {
      SumOfNonNegative(xs[1..]);
      if Sum(xs) == 0.0 {
        forall i | 0 <= i < |xs| ensures xs[i] == 0.0 {
          if i > 0 { assert xs[i] == xs[1..][i - 1]; }
        }
      }
    }
  }

  /** The sum of n copies of k is n * k. */
  lemma {:induction false} SumOfConstant(xs: seq<real>, k: real)
    requires forall i :: 0 <= i < |xs| ==> xs[i] == k
    ensures Sum(xs) == |xs| as real * k
  {
    if xs != [] {
      SumOfConstant(xs[1..], k);
    }
  }

  /** Sign rules for a product of reals. */
  lemma ProductSign(a: real, b: real)
    ensures a > 0.0 && b > 0.0 ==> a * b > 0.0
    ensures a < 0.0 && b < 0.0 ==> a * b > 0.0
    ensures a * b == 0.0 ==> a == 0.0 || b == 0.0
  {
  }

  /** The mean of values that are all k is k. */
  lemma MeanOfConstant(xs: seq<real>, k: real)
    requires |xs| > 0
    requires forall i :: 0 <= i < |xs| ==> xs[i] == k
    ensures Mean(xs) == k
  {
    SumOfConstant(xs, k);
  }

  /** A variance is non-negative, and a zero variance means every value equals the mean. */
  lemma ZeroVarianceAtMean(xs: seq<real>)
    requires |xs| > 0
    ensures Variance(xs) >= 0.0
    ensures Variance(xs) == 0.0 ==> forall i :: 0 <= i < |xs| ==> xs[i] == Mean(xs)
  {
    var m := Mean(xs);
    var d := SquaredDeviations(xs, m);
    forall i | 0 <= i < |d| ensures d[i] >= 0.0 {
      ProductSign(xs[i] - m, xs[i] - m);
    }
    SumOfNonNegative(d);
    assert Variance(xs) == Sum(d) / |xs| as real;
    if Variance(xs) == 0.0 {
      assert Sum(d) == 0.0;
      forall i | 0 <= i < |xs| ensures xs[i] == m {
        assert d[i] == 0.0;
        ProductSign(xs[i] - m, xs[i] - m);
      }
    }
  }

  /** Values that are all equal have zero variance. */
  lemma ConstantHasZeroVariance(xs: seq<real>)
    requires |xs| > 0
    requires forall i :: 0 <= i < |xs| ==> xs[i] == xs[0]
    ensures Variance(xs) == 0.0
  {
    MeanOfConstant(xs, xs[0]);
    var d := SquaredDeviations(xs, xs[0]);
    assert forall i :: 0 <= i < |d| ==> d[i] == 0.0;
    MeanOfConstant(d, 0.0);
  }

  /** g_var[c] >= 0, and g_var[c] == 0 exactly when every spot has the same value. */
  lemma VarianceZeroIffConstant(xs: seq<real>)
    requires |xs| > 0
    ensures Variance(xs) >= 0.0
    ensures Variance(xs) == 0.0 <==> forall i, j :: 0 <= i < |xs| && 0 <= j < |xs| ==> xs[i] == xs[j]
  {
    ZeroVarianceAtMean(xs);
    if forall i :: 0 <= i < |xs| ==> xs[i] == xs[0] {
      ConstantHasZeroVariance(xs);
    }
  }

  /** Column c of g: channel c of every spot. */
  function Column(g: seq<Pixel>, c: int): (col: seq<real>)
    requires 0 <= c < 3
    ensures |col| == |g|
  {
    seq(|g|, i requires 0 <= i < |g| => g[i][c])
  }

  /** g_var = g.var(0): the population variance of each column of g. */
  function ChannelVariances(g: seq<Pixel>): Pixel
    requires |g| > 0
  {
    [Variance(Column(g, 0)), Variance(Column(g, 1)), Variance(Column(g, 2))]
  }

  function ChannelTotal(p: Pixel): real
  {
    p[0] + p[1] + p[2]
  }

  /** Every variance is non-negative, and channel c's is zero exactly when all spots
      share the same channel-c mean. */
  lemma ChannelVarianceZeroIffUniform(g: seq<Pixel>, c: int)
    requires |g| > 0 && 0 <= c < 3
    ensures ChannelVariances(g)[c] >= 0.0
    ensures ChannelVariances(g)[c] == 0.0 <==> forall i, j :: 0 <= i < |g| && 0 <= j < |g| ==> g[i][c] == g[j][c]
  {
    var col := Column(g, c);
    VarianceZeroIffConstant(col);
    assert ChannelVariances(g)[c] == Variance(col);
    if forall i, j :: 0 <= i < |col| && 0 <= j < |col| ==> col[i] == col[j] {
      forall i, j | 0 <= i < |g| && 0 <= j < |g| ensures g[i][c] == g[j][c] {
        assert col[i] == col[j];
      }
    }
  }

  /** All spots have the same colour. */
  predicate Uniform(g: seq<Pixel>)
  {
    forall i, j :: 0 <= i < |g| && 0 <= j < |g| ==> g[i] == g[j]
  }

  /** The denominator sum(g_var) is zero exactly when all rows of g are equal, and it
      is positive otherwise. */
  lemma VarianceTotalZeroIffUniform(g: seq<Pixel>)
    requires |g| > 0
    ensures ChannelTotal(ChannelVariances(g)) >= 0.0
    ensures ChannelTotal(ChannelVariances(g)) == 0.0 <==> Uniform(g)
  {
    ChannelVarianceZeroIffUniform(g, 0);
    ChannelVarianceZeroIffUniform(g, 1);
    ChannelVarianceZeroIffUniform(g, 2);
    if ChannelTotal(ChannelVariances(g)) == 0.0 {
      forall i, j | 0 <= i < |g| && 0 <= j < |g| ensures g[i] == g[j] {
        assert g[i][0] == g[j][0] && g[i][1] == g[j][1] && g[i][2] == g[j][2];
      }
    }
  }

  /** The weighted combination (p * w).sum() / w.sum() of one row of g. */
  function Combine(p: Pixel, w: Pixel): real
    requires ChannelTotal(w) != 0.0
  {
    (p[0] * w[0] + p[1] * w[1] + p[2] * w[2]) / ChannelTotal(w)
  }

  function MinChannel(p: Pixel): (m: real)
    ensures m == p[0] || m == p[1] || m == p[2]
    ensures m <= p[0] && m <= p[1] && m <= p[2]
  {
    if p[0] <= p[1] && p[0] <= p[2] then p[0] else if p[1] <= p[2] then p[1] else p[2]
  }

  function MaxChannel(p: Pixel): (m: real)
    ensures m == p[0] || m == p[1] || m == p[2]
    ensures m >= p[0] && m >= p[1] && m >= p[2]
  {
    if p[0] >= p[1] && p[0] >= p[2] then p[0] else if p[1] >= p[2] then p[1] else p[2]
  }

  lemma ScaledBelow(a: real, b: real, w: real)
    requires a <= b && w >= 0.0
    ensures a * w <= b * w
  {
  }

  /** With non-negative weights of positive total, the combination is a weighted
      average: it lies between the smallest and the largest channel. */
  lemma CombineIsConvex(p: Pixel, w: Pixel)
    requires w[0] >= 0.0 && w[1] >= 0.0 && w[2] >= 0.0 && ChannelTotal(w) > 0.0
    ensures MinChannel(p) <= Combine(p, w) <= MaxChannel(p)
  {
    var lo, hi := MinChannel(p), MaxChannel(p);
    var t := ChannelTotal(w);
    var s := p[0] * w[0] + p[1] * w[1] + p[2] * w[2];
    ScaledBelow(lo, p[0], w[0]); ScaledBelow(lo, p[1], w[1]); ScaledBelow(lo, p[2], w[2]);
    ScaledBelow(p[0], hi, w[0]); ScaledBelow(p[1], hi, w[1]); ScaledBelow(p[2], hi, w[2]);
    assert lo * t <= s <= hi * t;
    assert Combine(p, w) == s / t;
    QuotientBetween(lo, s, hi, t);
  }

  lemma QuotientBetween(lo: real, s: real, hi: real, t: real)
    requires t > 0.0 && lo * t <= s <= hi * t
    ensures lo <= s / t <= hi
  {
  }

  /** z_raw for every spot, once sum(g_var) is known to be non-zero. */
  function WeightedDepths(g: seq<Pixel>, w: Pixel): (z: seq<real>)
    requires ChannelTotal(w) != 0.0
    ensures |z| == |g|
  {
    seq(|g|, i requires 0 <= i < |g| => Combine(g[i], w))
  }

  /** z_raw = (g * g_var).sum(1) / g_var.sum(), with the two inputs for which it is
      undefined reported as errors. Otherwise each spot's value is a weighted average
      of its own three channel means. */
  function RawDepth(g: seq<Pixel>): (r: Result<seq<real>>)
    ensures r == Err(NoSpots) <==> |g| == 0
    ensures r == Err(UniformChannelMeans) <==> |g| > 0 && Uniform(g)
    ensures r.Ok? ==> |r.value| == |g|
    ensures r.Ok? ==> forall i :: 0 <= i < |g| ==> MinChannel(g[i]) <= r.value[i] <= MaxChannel(g[i])
  {
    if |g| == 0 then Err(NoSpots)
    else
      var gVar := ChannelVariances(g);
      VarianceTotalZeroIffUniform(g);
      if ChannelTotal(gVar) == 0.0 then Err(UniformChannelMeans)
      else
        WeightedDepthsAreConvex(g);
        Ok(WeightedDepths(g, gVar))
  }

  /** Unless all spots share one colour, the channel variances do not all vanish, and
      every z_raw value lies within its spot's channel range. */
  lemma WeightedDepthsAreConvex(g: seq<Pixel>)
    requires |g| > 0 && !Uniform(g)
    ensures ChannelTotal(ChannelVariances(g)) != 0.0
    ensures forall i :: 0 <= i < |g| ==>
      MinChannel(g[i]) <= WeightedDepths(g, ChannelVariances(g))[i] <= MaxChannel(g[i])
  {
    var gVar := ChannelVariances(g);
    VarianceTotalZeroIffUniform(g);
    ChannelVarianceZeroIffUniform(g, 0);
    ChannelVarianceZeroIffUniform(g, 1);
    ChannelVarianceZeroIffUniform(g, 2);
    forall i | 0 <= i < |g|
      ensures MinChannel(g[i]) <= WeightedDepths(g, gVar)[i] <= MaxChannel(g[i])
    {
      CombineIsConvex(g[i], gVar);
    }
  }
}
