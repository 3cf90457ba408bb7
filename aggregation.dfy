/** The per-spot colour of the histology image: the mean of each channel over the
    spot's clipped neighbourhood window (row i of g). */
module Aggregation {
  import opened Raster
  import opened Clipping

  /** The window lies inside the image. */
  predicate Fits(img: Image, w: Window)
  {
    0 <= w.top <= w.bottom <= Height(img) && 0 <= w.left <= w.right <= Width(img)
  }

  /** Sum of channel c over row[lo..hi]. */
  function RowSum(row: seq<Pixel>, lo: int, hi: int, c: int): real
    requires 0 <= lo <= hi <= |row| && 0 <= c < 3
    decreases hi - lo
  {
    if hi == lo then 0.0 else RowSum(row, lo, hi - 1, c) + row[hi - 1][c]
  }

  /** Sum of channel c over every position of the window. */
  function BlockSum(img: Image, w: Window, c: int): real
    requires IsRaster(img) && Fits(img, w) && 0 <= c < 3
    decreases w.bottom - w.top
  {
    if w.bottom == w.top then 0.0
    else BlockSum(img, w.(bottom := w.bottom - 1), c) + RowSum(img[w.bottom - 1], w.left, w.right, c)
  }

  /** The mean of channel c over a non-empty window: the sum divided by the area. */
  function WindowMean(img: Image, w: Window, c: int): real
    requires IsRaster(img) && Fits(img, w) && 0 <= c < 3
    requires w.Rows() > 0 && w.Cols() > 0
  {
    BlockSum(img, w, c) / (w.Rows() * w.Cols()) as real
  }

  /** The window around spot pixel p for half-width halfWidth, clipped to the image. */
  function SpotWindow(img: Image, p: PixelCoord, halfWidth: int): Window
  {
    Clip(p, halfWidth, Height(img), Width(img))
  }

  /** g[i] for a spot at pixel p: the three channel means over its window. */
  function SpotMean(img: Image, p: PixelCoord, halfWidth: int): Pixel
    requires IsRaster(img) && InImage(img, p) && 0 <= halfWidth
  {
    var w := SpotWindow(img, p, halfWidth);
    ClipContainsPixel(p, halfWidth, Height(img), Width(img));
    [WindowMean(img, w, 0), WindowMean(img, w, 1), WindowMean(img, w, 2)]
  }

  /** The whole of g: one row of channel means per spot, in the order of the spots. */
  function SpotMeans(img: Image, pixels: seq<PixelCoord>, halfWidth: int): (g: seq<Pixel>)
    requires IsRaster(img) && AllInImage(img, pixels) && 0 <= halfWidth
    ensures |g| == |pixels|
  {
    seq(|pixels|, i requires 0 <= i < |pixels| => SpotMean(img, pixels[i], halfWidth))
  }

  /** A row sum no larger than (hi - lo) * v has a term no larger than v. */
  lemma {:induction false} RowSumHasTermBelow(row: seq<Pixel>, lo: int, hi: int, c: int, v: real)
    requires 0 <= lo < hi <= |row| && 0 <= c < 3
    requires RowSum(row, lo, hi, c) <= (hi - lo) as real * v
    ensures exists k :: lo <= k < hi && row[k][c] <= v
  {
    if row[hi - 1][c] > v {
      assert (hi - lo) as real * v == (hi - 1 - lo) as real * v + v;
      RowSumHasTermBelow(row, lo, hi - 1, c, v);
    }
  }

  /** A row sum no smaller than (hi - lo) * v has a term no smaller than v. */
  lemma {:induction false} RowSumHasTermAbove(row: seq<Pixel>, lo: int, hi: int, c: int, v: real)
    requires 0 <= lo < hi <= |row| && 0 <= c < 3
    requires RowSum(row, lo, hi, c) >= (hi - lo) as real * v
    ensures exists k :: lo <= k < hi && row[k][c] >= v
  {
    if row[hi - 1][c] < v {
      assert (hi - lo) as real * v == (hi - 1 - lo) as real * v + v;
      RowSumHasTermAbove(row, lo, hi - 1, c, v);
    }
  }

  /** A window sum no larger than area * v has a position whose value is no larger than v. */
  lemma {:induction false} BlockSumHasTermBelow(img: Image, w: Window, c: int, v: real)
    requires IsRaster(img) && Fits(img, w) && 0 <= c < 3
    requires w.Rows() > 0 && w.Cols() > 0
    requires BlockSum(img, w, c) <= (w.Rows() * w.Cols()) as real * v
    ensures exists r, col :: w.Covers(r, col) && img[r][col][c] <= v
    decreases w.Rows()
  {
    var last := w.bottom - 1;
    var cols := w.Cols() as real;
    if RowSum(img[last], w.left, w.right, c) <= cols * v {
      RowSumHasTermBelow(img[last], w.left, w.right, c, v);
      var k :| w.left <= k < w.right && img[last][k][c] <= v;
      assert w.Covers(last, k);
    } else {
      var rest := w.(bottom := last);
      AreaSplitsOffLastRow(rest.Rows(), w.Cols(), v);
      BlockSumHasTermBelow(img, rest, c, v);
      var r, k :| rest.Covers(r, k) && img[r][k][c] <= v;
      assert w.Covers(r, k);
    }
  }

  /** A window sum no smaller than area * v has a position whose value is no smaller than v. */
  lemma {:induction false} BlockSumHasTermAbove(img: Image, w: Window, c: int, v: real)
    requires IsRaster(img) && Fits(img, w) && 0 <= c < 3
    requires w.Rows() > 0 && w.Cols() > 0
    requires BlockSum(img, w, c) >= (w.Rows() * w.Cols()) as real * v
    ensures exists r, col :: w.Covers(r, col) && img[r][col][c] >= v
    decreases w.Rows()
  {
    var last := w.bottom - 1;
    var cols := w.Cols() as real;
    if RowSum(img[last], w.left, w.right, c) >= cols * v {
      RowSumHasTermAbove(img[last], w.left, w.right, c, v);
      var k :| w.left <= k < w.right && img[last][k][c] >= v;
      assert w.Covers(last, k);
    } else {
      var rest := w.(bottom := last);
      AreaSplitsOffLastRow(rest.Rows(), w.Cols(), v);
      BlockSumHasTermAbove(img, rest, c, v);
      var r, k :| rest.Covers(r, k) && img[r][k][c] >= v;
      assert w.Covers(r, k);
    }
  }

  /** Taking the last row off a window takes one row's worth off the area. */
  lemma AreaSplitsOffLastRow(rows: int, cols: int, v: real)
    ensures ((rows + 1) * cols) as real * v == (rows * cols) as real * v + cols as real * v
  {
  }

  /** The mean of a channel over a window lies between that channel's smallest and
      largest value in the window. */
  lemma WindowMeanBetweenExtremes(img: Image, w: Window, c: int)
    requires IsRaster(img) && Fits(img, w) && 0 <= c < 3
    requires w.Rows() > 0 && w.Cols() > 0
    ensures exists r, col :: w.Covers(r, col) && img[r][col][c] <= WindowMean(img, w, c)
    ensures exists r, col :: w.Covers(r, col) && img[r][col][c] >= WindowMean(img, w, c)
  {
    var area := (w.Rows() * w.Cols()) as real;
    var s := BlockSum(img, w, c);
    var m := WindowMean(img, w, c);
    assert m == s / area;
    assert area * m == s;
    BlockSumHasTermBelow(img, w, c, m);
    BlockSumHasTermAbove(img, w, c, m);
  }

  /** Each channel of g[i] lies between the smallest and the largest value of that
      channel over the spot's window: some window pixel is at most the mean and some
      window pixel is at least the mean. */
  lemma SpotMeanBetweenWindowExtremes(img: Image, p: PixelCoord, halfWidth: int, c: int)
    requires IsRaster(img) && InImage(img, p) && 0 <= halfWidth && 0 <= c < 3
    ensures var w := SpotWindow(img, p, halfWidth);
      && (exists r, col :: w.Covers(r, col) && img[r][col][c] <= SpotMean(img, p, halfWidth)[c])
      && (exists r, col :: w.Covers(r, col) && img[r][col][c] >= SpotMean(img, p, halfWidth)[c])
  {
    var w := SpotWindow(img, p, halfWidth);
    ClipContainsPixel(p, halfWidth, Height(img), Width(img));
    assert SpotMean(img, p, halfWidth)[c] == WindowMean(img, w, c);
    WindowMeanBetweenExtremes(img, w, c);
  }

  /** Bounds that hold of every window value of a channel hold of its mean. */
  lemma SpotMeanWithinBounds(img: Image, p: PixelCoord, halfWidth: int, c: int, low: real, high: real)
    requires IsRaster(img) && InImage(img, p) && 0 <= halfWidth && 0 <= c < 3
    requires forall r, col :: SpotWindow(img, p, halfWidth).Covers(r, col) && 0 <= r < Height(img) && 0 <= col < Width(img)
               ==> low <= img[r][col][c] <= high
    ensures low <= SpotMean(img, p, halfWidth)[c] <= high
  {
    SpotMeanBetweenWindowExtremes(img, p, halfWidth, c);
  }

  /** With beta_half = 0 the window is the spot's own pixel, and g[i] is its colour. */
  lemma ZeroHalfWidthSamplesPixel(img: Image, p: PixelCoord)
    requires IsRaster(img) && InImage(img, p)
    ensures SpotMean(img, p, 0) == img[p.x][p.y]
  {
    var w := SpotWindow(img, p, 0);
    assert w == Window(p.x, p.x + 1, p.y, p.y + 1);
    forall c | 0 <= c < 3
      ensures SpotMean(img, p, 0)[c] == img[p.x][p.y][c]
    {
      assert BlockSum(img, w.(bottom := p.x), c) == 0.0;
      assert RowSum(img[p.x], p.y, p.y, c) == 0.0;
      assert BlockSum(img, w, c) == img[p.x][p.y][c];
    }
  }

  /** Once beta_half reaches both image extents, every window is the whole image and
      every spot gets the same colour. */
  lemma WholeImageWindowsAgree(img: Image, p: PixelCoord, q: PixelCoord, halfWidth: int)
    requires IsRaster(img) && InImage(img, p) && InImage(img, q)
    requires halfWidth >= Height(img) && halfWidth >= Width(img)
    ensures SpotWindow(img, p, halfWidth) == Window(0, Height(img), 0, Width(img))
    ensures SpotMean(img, p, halfWidth) == SpotMean(img, q, halfWidth)
  {
  }
}
