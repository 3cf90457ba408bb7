# SpaGCN histology depth: neighbourhood colours and variance-weighted depth

This project models the image-driven part of `SpaGCNGraph.__call__` in the DANCE
toolkit. The transform builds a spatial graph for spot-based spatial
transcriptomics. It gives each spot a pseudo-depth computed from the histology
image around the spot. The model covers the integer and rational core of that
derivation:

- `beta_half = round(beta / 2)`, with Python's round-half-to-even (`Clipping.HalfWidth`).
- The spot's neighbourhood window. It is a square of half-width `beta_half` around the
  spot's pixel, clipped to the image: `top`/`bottom` come from `x_pixel` against the
  first image extent `x_lim`, and `left`/`right` from `y_pixel` against `y_lim`
  (`Clipping.Clip`).
- Row `i` of the N x 3 array `g`: the mean of each colour channel over spot `i`'s
  window. `SpaGcnGraph.ChannelMeans` fills a zero-initialised `array2<real>` one row
  per loop iteration, as the source does. `Aggregation.SpotMeans` is the same table as
  a value.
- `g_var`, the population variance (ddof = 0) of each column of `g`, and
  `z_raw[i] = sum_c g[i][c] * g_var[c] / sum_c g_var[c]` (`Depth.RawDepth`).
  When the denominator would be zero, the model returns an error instead.

Module layout: `Raster` (image and pixel types), `Clipping` (rounding and the window),
`Aggregation` (window sums and means), `Depth` (variances and the weighted
combination) and `SpaGcnGraph` (the imperative loop and the method that chains the
steps). Arithmetic is exact: pixel values, means and variances are `real`, and pixel
coordinates and window bounds are `int`.

Where the code produces non-finite values, the model reports an error instead. In
the code, a zero `g_var.sum()` is not checked: the division yields NaN or infinity,
and the NaNs propagate. The model treats this as a degenerate input:
`RawDepth` returns `Err(UniformChannelMeans)` exactly when every spot has the same
mean colour, which is exactly when the code would divide by zero. With no spots at
all, the code's `g_var` is NaN but `z_raw` is an empty array. The model returns
`Err(NoSpots)` for that input rather than an empty result.

## Model

| member | source | states |
|---|---|---|
| `Clipping.RoundHalfEven` | dance/transforms/graph/spatial_graph.py:36 | The result is an integer within 1/2 of the argument, and in a tie it is the even neighbour (Python's `round`). |
| `Clipping.RoundHalfEvenUnique` | dance/transforms/graph/spatial_graph.py:36 | Those two properties determine the rounded value uniquely. |
| `Clipping.HalfWidthOfInteger` | dance/transforms/graph/spatial_graph.py:36 | For an integer beta, `beta_half` is `(beta + 1) / 2` when `beta % 4 == 3` and `beta / 2` (floor) otherwise, so beta = 5 gives 2 and beta = 3 gives 2. |
| `Clipping.HalfWidthNonNegative` | dance/transforms/graph/spatial_graph.py:36 | `beta_half >= 0` holds exactly when `beta >= -1`. |
| `Clipping.Clip` | dance/transforms/graph/spatial_graph.py:39-42 | For every pixel and half-width, the clipped bounds lie inside the image: `0 <= top`, `bottom <= x_lim`, `0 <= left`, `right <= y_lim`. |
| `Clipping.ClipIsSquareWithinImage` | dance/transforms/graph/spatial_graph.py:39-43 | A position is in the window exactly when it is inside the image and within `beta_half` of the pixel on both axes. Clipping only drops positions; it never wraps or pads. |
| `Clipping.ClipContainsPixel` | dance/transforms/graph/spatial_graph.py:37-43 | For a pixel inside the image and `beta_half >= 0`, the window contains the pixel: `top <= x_pixel < bottom` and `left <= y_pixel < right`. |
| `Clipping.ClipExtent` | dance/transforms/graph/spatial_graph.py:39-43 | Each side of the window has between 1 and `2 * beta_half + 1` positions. It has exactly `2 * beta_half + 1` if and only if the square does not cross the image border on that axis. |
| `Aggregation.SpotMeans` | dance/transforms/graph/spatial_graph.py:35-44 | `g` has one row per spot; row `i` holds spot `i`'s window means. |
| `Aggregation.WindowMeanBetweenExtremes` | dance/transforms/graph/spatial_graph.py:43-44 | The mean of a channel over a non-empty window is at least one window value and at most another. So it lies between the channel's minimum and maximum over the window. |
| `Aggregation.SpotMeanBetweenWindowExtremes` | dance/transforms/graph/spatial_graph.py:43-44 | Each channel of `g[i]` lies between the minimum and the maximum of that channel over spot `i`'s clipped window. |
| `Aggregation.SpotMeanWithinBounds` | dance/transforms/graph/spatial_graph.py:43-44 | Any lower and upper bound on a channel's values over the window also bounds that channel of `g[i]`. |
| `Aggregation.ZeroHalfWidthSamplesPixel` | dance/transforms/graph/spatial_graph.py:36-44 | With `beta_half = 0` the window is the single pixel, and `g[i]` equals `img[x_pixel][y_pixel]` channel by channel. |
| `Aggregation.WholeImageWindowsAgree` | dance/transforms/graph/spatial_graph.py:37-44 | Once `beta_half` is at least both image extents, every window is the whole image, and any two spots get the same `g` row. |
| `Depth.VarianceZeroIffConstant` | dance/transforms/graph/spatial_graph.py:45 | A population variance is non-negative, and it is zero exactly when all values are equal. |
| `Depth.ChannelVarianceZeroIffUniform` | dance/transforms/graph/spatial_graph.py:45 | `g_var[c] >= 0`, and `g_var[c] == 0` exactly when all spots share the same channel-`c` mean. |
| `Depth.VarianceTotalZeroIffUniform` | dance/transforms/graph/spatial_graph.py:45-48 | `sum(g_var) >= 0`, and it is zero (the division at line 48 is undefined) exactly when all rows of `g` are equal. |
| `Depth.CombineIsConvex` | dance/transforms/graph/spatial_graph.py:48 | With non-negative weights of positive total, the weighted combination of a row lies between the row's smallest and largest channel. |
| `Depth.WeightedDepthsAreConvex` | dance/transforms/graph/spatial_graph.py:45-48 | Unless all rows of `g` are equal, `sum(g_var) != 0`, and every `z_raw[i]` lies between the minimum and maximum of `g[i][0..2]`. |
| `Depth.RawDepth` | dance/transforms/graph/spatial_graph.py:45-48 | Fails with `NoSpots` exactly when `g` is empty. Fails with `UniformChannelMeans` exactly when all rows of `g` are equal, the only case where `sum(g_var)` is zero. Otherwise it returns one value per spot, each within that spot's channel range. |
| `SpaGcnGraph.ChannelMeans` | dance/transforms/graph/spatial_graph.py:35-44 | Returns an N x 3 array whose row `i` is spot `i`'s channel means. The loop invariant keeps rows already written unchanged and rows not yet reached at zero. |
| `SpaGcnGraph.PseudoDepth` | dance/transforms/graph/spatial_graph.py:35-48 | For `beta >= -1`, `beta_half` is non-negative. The result of the whole sequence (window means into `g`, then `g_var`, then `z_raw`) equals `RawDepth` of the per-spot means table. |
| `SpaGcnGraph.ZeroHalfWidthSamplesPixels` | dance/transforms/graph/spatial_graph.py:36-44 | With `beta_half = 0`, every row of `g` is the colour of the spot's own pixel. |
| `SpaGcnGraph.WholeImageWindowsAreDegenerate` | dance/transforms/graph/spatial_graph.py:36-48 | When `beta_half` is at least both image extents, all rows of `g` coincide, `g_var` is all zero, and no `z_raw` is produced (degenerate-input error). |

## Left out

- Standardising and rescaling `z` (dance/transforms/graph/spatial_graph.py:49-50): they need a standard deviation, which needs a square root over floating point. That has no exact `real` counterpart.
- The `float32` cast and the `hstack` with `xy` (line 52): these are floating-point precision concerns.
- `pairwise_distance` (lines 54 and 68): a call into `dance.utils.matrix`, which is not part of this model; it computes Euclidean distances over floats.
- `SpaGCNGraph2D` (lines 59-69): it fetches a channel, casts it and calls `pairwise_distance`, so nothing of it is left once that call is out.
- Dataset plumbing: the `get_feature` reads (lines 30-32) and the `obsp` write (line 54). The image and the pixel coordinates are parameters instead. `xy` is not an input of the model.
- The row count of `g` is taken to be the number of pixel coordinates, so the model assumes `len(xy) == len(xy_pixel)`. The source sizes `g` by `xy.shape[0]` (line 35) but loops over `xy_pixel` (line 38). When `xy_pixel` is longer, the write `g[i]` at line 44 raises `IndexError`. When it is shorter, the trailing rows of `g` stay zero and still enter `g_var` and `z_raw` (lines 45 and 48).
- Logging (lines 33, 46, 53) and the transform's construction (lines 10-27). `__call__` never updates the object's fields, so there is no class: `beta` is a parameter.
- Floating-point rounding: means and variances are exact reals. numpy's float64 arithmetic and its summation order are not modelled.
- Pixels outside the image are excluded by a precondition, though some of them still give a finite row in the source. A pixel outside the image but within `beta_half` of its border gets a non-empty clipped window and a finite mean: `x_pixel = x_lim` with `beta_half = 1` gives the image's last row. A pixel farther out gets an empty slice and a NaN mean. A negative coordinate can also turn into a negative slice bound, which Python wraps around from the end of the axis.
- `beta < -1` is excluded by a precondition. It gives a negative `beta_half`, and the source's windows are then not the clipped squares. Some are empty and give NaN means. Others are non-empty because a negative bound wraps around: `beta_half = -2` at `x_pixel = 0` gives `bottom = -1`, so the slice is `img[2:-1]`, a finite mean over rows 2 to `x_lim - 2` when `x_lim > 3`.
- Non-finite values: a zero `sum(g_var)` yields NaN or infinity in `z_raw` in the source, and the model returns `Err(UniformChannelMeans)` instead.
- Empty input: with no spots the source's `g_var` is NaN and its `z_raw` is an empty (0, 1) array. The model returns `Err(NoSpots)` instead of an empty result, by choice: the NaN variances make the empty result meaningless, and lines 49-50 would go on to take the mean of an empty array.
- The image is a sequence of rows of 3-channel pixels rather than a numpy array. The channel count is fixed at three by the pixel type, which numpy does not enforce.
- `Aggregation.SpotMeans`: its own contract states only the row count. What each row holds is stated by `SpaGcnGraph.ChannelMeans` and the `Aggregation` lemmas.
