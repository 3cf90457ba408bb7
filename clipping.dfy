/** The half-width of the neighbourhood window and the window itself, clipped to
    the image. */
module Clipping {
  import opened Raster

  /** Python's built-in round on a number: the nearest integer, ties to the even one. */
  function RoundHalfEven(v: real): (n: int)
    ensures -0.5 <= n as real - v <= 0.5
    ensures (n as real - v == 0.5 || v - n as real == 0.5) ==> n % 2 == 0
  {
    var f := v.Floor;
    var d := v - f as real;
    if d < 0.5 then f
    else if d > 0.5 then f + 1
    else if f % 2 == 0 then f else f + 1
  }

  /** The two properties of RoundHalfEven determine its result. */
  lemma RoundHalfEvenUnique(v: real, m: int)
    requires -0.5 <= m as real - v <= 0.5
    requires (m as real - v == 0.5 || v - m as real == 0.5) ==> m % 2 == 0
    ensures m == RoundHalfEven(v)
  {
  }

  /** beta_half = round(beta / 2). */
  function HalfWidth(beta: real): int
  {
    RoundHalfEven(beta / 2.0)
  }

  /** For an integer beta, beta / 2 is either exact or a tie, and ties go to the even
      neighbour: beta = 3 gives 2, beta = 5 gives 2, beta = 7 gives 4. */
  lemma HalfWidthOfInteger(b: int)
    ensures HalfWidth(b as real) == if b % 4 == 3 then (b + 1) / 2 else b / 2
  {
  }

  /** The window is non-degenerate exactly when beta is at least -1. */
  lemma HalfWidthNonNegative(beta: real)
    ensures HalfWidth(beta) >= 0 <==> beta >= -1.0
  {
  }

  function Max(a: int, b: int): int { if a < b then b else a }
  function Min(a: int, b: int): int { if a < b then a else b }

  /** The half-open window [top, bottom) x [left, right) of image positions. */
  datatype Window = Window(top: int, bottom: int, left: int, right: int)
  {
    predicate Covers(r: int, col: int)
    {
      top <= r < bottom && left <= col < right
    }

    function Rows(): int { bottom - top }

    function Cols(): int { right - left }
  }

  /** The window of half-width halfWidth around pixel p, clipped to an image of
      xLim x yLim: it never leaves the image. */
  function Clip(p: PixelCoord, halfWidth: int, xLim: int, yLim: int): (w: Window)
    ensures 0 <= w.top && w.bottom <= xLim && 0 <= w.left && w.right <= yLim
  {
    Window(Max(0, p.x - halfWidth), Min(xLim, p.x + halfWidth + 1),
           Max(0, p.y - halfWidth), Min(yLim, p.y + halfWidth + 1))
  }

  /** A position is in the clipped window exactly when it is in the image and within
      halfWidth of the pixel on both axes: clipping drops what lies outside the image
      and neither wraps around nor pads. */
  lemma ClipIsSquareWithinImage(p: PixelCoord, halfWidth: int, xLim: int, yLim: int, r: int, col: int)
    ensures Clip(p, halfWidth, xLim, yLim).Covers(r, col) <==>
              0 <= r < xLim && 0 <= col < yLim &&
              p.x - halfWidth <= r <= p.x + halfWidth && p.y - halfWidth <= col <= p.y + halfWidth
  {
  }

  /** A pixel inside the image lies in its own window, so the window is not empty. */
  lemma ClipContainsPixel(p: PixelCoord, halfWidth: int, xLim: int, yLim: int)
    requires 0 <= p.x < xLim && 0 <= p.y < yLim && 0 <= halfWidth
    ensures Clip(p, halfWidth, xLim, yLim).Covers(p.x, p.y)
  {
  }

  /** Each side of the window holds at most 2 * halfWidth + 1 positions, and exactly
      that many when the square does not reach past the image on that axis. */
  lemma ClipExtent(p: PixelCoord, halfWidth: int, xLim: int, yLim: int)
    requires 0 <= p.x < xLim && 0 <= p.y < yLim && 0 <= halfWidth
    ensures var w := Clip(p, halfWidth, xLim, yLim);
      && 1 <= w.Rows() <= 2 * halfWidth + 1
      && 1 <= w.Cols() <= 2 * halfWidth + 1
      && (w.Rows() == 2 * halfWidth + 1 <==> halfWidth <= p.x && p.x + halfWidth < xLim)
      && (w.Cols() == 2 * halfWidth + 1 <==> halfWidth <= p.y && p.y + halfWidth < yLim)
  {
  }
}
