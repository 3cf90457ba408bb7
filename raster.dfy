/** The inputs of the histology-colour step: an H x W x 3 image and integer pixel
    coordinates of the spots. The image is indexed img[x][y][c]: the pixel's x runs
    along the first image axis (bounded by x_lim), y along the second (y_lim). */
module Raster {

  /** The three colour channels of one pixel, or one row of the per-spot means g. */
  type Pixel = p: seq<real> | |p| == 3 witness [0.0, 0.0, 0.0]

  /** An image as rows of pixels; IsRaster says all rows have the same width. */
  type Image = seq<seq<Pixel>>

  /** One row of xy_pixel. */
  datatype PixelCoord = PixelCoord(x: int, y: int)

  /** x_lim, the extent of the first image axis. */
  function Height(img: Image): nat
  {
    |img|
  }

  /** y_lim, the extent of the second image axis. */
  function Width(img: Image): nat
  {
    if |img| == 0 then 0 else |img[0]|
  }

  predicate IsRaster(img: Image)
  {
    forall r :: 0 <= r < |img| ==> |img[r]| == Width(img)
  }

  predicate InImage(img: Image, p: PixelCoord)
  {
    0 <= p.x < Height(img) && 0 <= p.y < Width(img)
  }

  predicate AllInImage(img: Image, pixels: seq<PixelCoord>)
  {
    forall i :: 0 <= i < |pixels| ==> InImage(img, pixels[i])
  }
}
