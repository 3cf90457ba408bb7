/** The histology part of SpaGCNGraph.__call__: allocate g, fill it one spot at a
    time with the channel means over each spot's clipped window, then derive the
    channel variances and the variance-weighted raw depth of every spot. */
module SpaGcnGraph {
  import opened Raster
  import opened Clipping
  import opened Aggregation
  import opened Depth

  /** The loop over enumerate(xy_pixel): g starts as an N x 3 array of zeros and
      iteration i overwrites row i, and only row i, with the spot's window means. */
  method ChannelMeans(img: Image, pixels: seq<PixelCoord>, halfWidth: int) returns (g: array2<real>)
    requires IsRaster(img) && AllInImage(img, pixels) && 0 <= halfWidth
    ensures g.Length0 == |pixels| && g.Length1 == 3
    ensures forall i, c :: 0 <= i < |pixels| && 0 <= c < 3 ==> g[i, c] == SpotMean(img, pixels[i], halfWidth)[c]
  {
    g := new real[|pixels|, 3]((i, c) => 0.0);
    var i := 0;
    while i < |pixels|
      invariant 0 <= i <= |pixels|
      invariant forall k, c :: 0 <= k < i && 0 <= c < 3 ==> g[k, c] == SpotMean(img, pixels[k], halfWidth)[c]
      invariant forall k, c :: i <= k < |pixels| && 0 <= c < 3 ==> g[k, c] == 0.0
    {
      var w := Clip(pixels[i], halfWidth, Height(img), Width(img));
      ClipContainsPixel(pixels[i], halfWidth, Height(img), Width(img));
      g[i, 0] := WindowMean(img, w, 0);
      g[i, 1] := WindowMean(img, w, 1);
      g[i, 2] := WindowMean(img, w, 2);
      i := i + 1;
    }
  }

  /** The steps of __call__ up to z_raw: beta_half = round(beta / 2), the per-spot
      means g, g_var and z_raw, with the division by sum(g_var) guarded. */
  method PseudoDepth(img: Image, pixels: seq<PixelCoord>, beta: real) returns (r: Result<seq<real>>)
    requires IsRaster(img) && AllInImage(img, pixels) && beta >= -1.0
    ensures HalfWidth(beta) >= 0
    ensures r == RawDepth(SpotMeans(img, pixels, HalfWidth(beta)))
  {
    var halfWidth := HalfWidth(beta);
    HalfWidthNonNegative(beta);
    var g := ChannelMeans(img, pixels, halfWidth);
    var rows: seq<Pixel> := seq(g.Length0, i requires 0 <= i < g.Length0 reads g => [g[i, 0], g[i, 1], g[i, 2]]);
    ghost var means := SpotMeans(img, pixels, halfWidth);
    forall i | 0 <= i < |pixels|
      ensures rows[i] == means[i]
    {
      assert rows[i][0] == means[i][0] && rows[i][1] == means[i][1] && rows[i][2] == means[i][2];
    }
    assert rows == means;
    r := RawDepth(rows);
  }

  /** With beta_half = 0 every row of g is the colour of the spot's own pixel. */
  lemma ZeroHalfWidthSamplesPixels(img: Image, pixels: seq<PixelCoord>)
    requires IsRaster(img) && AllInImage(img, pixels)
    ensures forall i :: 0 <= i < |pixels| ==> SpotMeans(img, pixels, 0)[i] == img[pixels[i].x][pixels[i].y]
  {
    forall i | 0 <= i < |pixels|
      ensures SpotMeans(img, pixels, 0)[i] == img[pixels[i].x][pixels[i].y]
    {
      ZeroHalfWidthSamplesPixel(img, pixels[i]);
    }
  }

  /** When beta_half is at least both image extents, every window is the whole image,
      all rows of g coincide, g_var is all zero and no z_raw can be formed. */
  lemma WholeImageWindowsAreDegenerate(img: Image, pixels: seq<PixelCoord>, halfWidth: int)
    requires IsRaster(img) && AllInImage(img, pixels) && |pixels| > 0
    requires halfWidth >= Height(img) && halfWidth >= Width(img)
    ensures ChannelVariances(SpotMeans(img, pixels, halfWidth)) == [0.0, 0.0, 0.0]
    ensures RawDepth(SpotMeans(img, pixels, halfWidth)) == Err(UniformChannelMeans)
  {
    var g := SpotMeans(img, pixels, halfWidth);
    forall i, j | 0 <= i < |g| && 0 <= j < |g| ensures g[i] == g[j] {
      WholeImageWindowsAgree(img, pixels[i], pixels[j], halfWidth);
    }
    ChannelVarianceZeroIffUniform(g, 0);
    ChannelVarianceZeroIffUniform(g, 1);
    ChannelVarianceZeroIffUniform(g, 2);
  }
}
