# A verified model of the CMU462 software rasterizer

This project models the core of a small SVG software renderer: the
`SoftwareRendererImp` class, its colour helpers and its viewport. The
renderer draws an SVG document's elements under a stack of 3x3 transforms.

- Points and lines are plotted straight into an RGBA render target of
  `w x h` pixels, with a simple anti-aliased line stepper.
- Filled shapes are covered by supersampled triangles. These are blended
  into a sample buffer of `(w * rate) x (h * rate)` samples.
- `resolve` folds every pixel's block of samples into one value with an
  RMS blend. It then composites that value onto the render target.

The model keeps the source's own shape:

- **`Renderer.SoftwareRendererImp`** is a class. Its fields are the target
  size, the sample rate, the sample buffer (`seq<byte>`), the render target
  (`array<byte>`), the transform stack (`seq<Matrix>`) and the current
  transformation. Every member function is a method with the source's loops,
  proved against a functional description of what it draws.
- **`Emission`** says which rasterization calls each element makes, in order.
- **`Raster`, `Coverage` and `Commands`** say what those calls do to the bytes.
- **`Resolution`** says what `resolve` writes in each pixel.
- **`Colors`** holds `blend_colors`, `tint_color` and `avg` as functions.
- **`Viewport.ViewportImp`** is a class whose two methods maintain the view
  box and its matrix.
- **`Layout`** holds the index arithmetic of both buffers and proves it
  in bounds and injective.

Floats are exact reals. Bytes are a `byte` newtype. A cast to `uint8_t`
of a float in [0, 255] is modelled exactly; a float outside that range has
no defined conversion in C++, and the reading the model gives it is listed
under "Left out". Integer `blend` on bytes is modelled exactly as an
integer square root.

Where the code and its documentation disagree, the model follows the code:

- `std::vector::resize` keeps the old prefix of the sample buffer. It does
  not clear it (`Renderer.Resize`).
- The view box centred at the origin with span 1 maps the origin to
  (0.5, 0.5), not to (0, 0) (`Viewport.UnitViewbox`).
- The `rfpart` macro expands without parentheses. Its conditional therefore
  tests `1.0 - X < 0`. Outside [0, 1] the two coverage weights add up to 1;
  inside [0, 1] both are the fractional part of X, so there they add up to 1
  only at X = 1/2 (`Raster.CoverageWeights`).
- `rasterize_triangle` does not clip. A sample one column past the right edge
  lands in the next pixel row (`Coverage.RightEdgeWraps`).
- `draw_element` does not restore `transformation` when it pops the stack.
  The field is left at the matrix of the last element drawn
  (`Emission.LastMatrix`).

## Model

| member | source | states |
|---|---|---|
| `Bytes.ToByteUnit` | src/software_renderer.cpp:437-440 | a channel in [0, 1] stored as `(uint8_t) (c * 255)` is floor(c * 255), which lies in [0, 255], so nothing wraps |
| `Bytes.Isqrt` | src/software_renderer.cpp:18 | the integer square root: the largest r with r * r <= n |
| `Bytes.Rms` | src/software_renderer.cpp:18 | `blend(A, B)` on integer operands, truncated to an int, is the r with 2r² <= a² + b² < 2(r + 1)² |
| `Bytes.RmsSame` | src/software_renderer.cpp:18 | blending a value with itself gives it back |
| `Bytes.RmsBetween` | src/software_renderer.cpp:18 | the blend lies between its two operands |
| `Bytes.RmsSymmetric` | src/software_renderer.cpp:18 | the blend does not depend on operand order |
| `Bytes.MeanBetween` | src/software_renderer.cpp:19 | `ablend` on ints lies between its two operands |
| `Colors.BlendAlpha` | src/colormanipulation.cpp:86 | for alphas in [0, 1] the composite alpha is in [0, 1] and at least the larger input alpha |
| `Colors.BlendChannels` | src/colormanipulation.cpp:87-93 | below the 1e-6 threshold the RGB is the default colour's; otherwise each channel lies between the fg and bg channels |
| `Colors.BlendChannel` | src/colormanipulation.cpp:91-93 | one over-blended channel of in-range values stays in [0, 1] and between its operands |
| `Colors.BlendValid` | src/colormanipulation.cpp:84-95 | valid colours blend to a valid colour |
| `Colors.BlendOpaque` | src/colormanipulation.cpp:86-93 | an opaque foreground is returned unchanged |
| `Colors.BlendClear` | src/colormanipulation.cpp:86-93 | a fully transparent foreground over a visible background returns the background |
| `Colors.BlendColors` | src/colormanipulation.cpp:84-95 | source-over compositing: alpha 1 - (1 - fg.a)(1 - bg.a); below 1e-6 the default colour's RGB, otherwise each channel fg over bg weighted by fg.a; its properties are BlendAlpha, BlendChannels, BlendValid, BlendOpaque and BlendClear |
| `Colors.TintColor` | src/colormanipulation.cpp:106-113 | tinting keeps the alpha |
| `Colors.TintProperties` | src/colormanipulation.cpp:106-113 | factor 0 is the identity; factor 1 gives white with the same alpha; in-range inputs stay in range and never get darker |
| `Colors.Avg` | src/colormanipulation.cpp:97-104 | every channel of the result is clamped into [0, 1] |
| `Colors.AvgValid` | src/colormanipulation.cpp:97-104 | on valid colours the clamps never bite: RGB is the RMS blend, alpha is the mean, and avg(c, c) == c |
| `Viewport.ViewboxNormalises` | src/viewport.cpp:16-25 | the view matrix is affine, a uniform scale plus a translation, and sends p to (p - lower corner) / (2 * span) |
| `Viewport.ViewboxCorners` | src/viewport.cpp:17-23 | the box's lower corner goes to (0, 0), its upper corner to (1, 1) and its centre to (0.5, 0.5) |
| `Viewport.UnitViewbox` | src/viewport.cpp:17-23 | an example instance of ViewboxCorners: for the box (0, 0, 1) the origin goes to (0.5, 0.5) and (1, 1) to (1, 1) |
| `Viewport.UpdateIdentity` | src/viewport.cpp:30-33 | a zero pan with scale 1 changes nothing |
| `Viewport.UpdateCompose` | src/viewport.cpp:30-33 | two updates equal one with the deltas summed and the scales multiplied |
| `Viewport.ViewportImp.SetViewbox` | src/viewport.cpp:7-26 | stores x, y and span, and sets the matrix to the view matrix of that box |
| `Viewport.ViewportImp.UpdateViewbox` | src/viewport.cpp:28-34 | the new box is the old box panned and zoomed, and the matrix is recomputed from the new box |
| `Layout.ResolveReadsFilledCell` | src/software_renderer.cpp:373-381 | resolve's `real_index + sindex` is fill_sample's index (line 427) for the same pixel and sample |
| `Layout.SampleIndexInBounds` | src/software_renderer.cpp:425-427 | every sample of every pixel of a w x h target lies, with its 4 bytes, inside the sample buffer |
| `Layout.SampleIndexInjective` | src/software_renderer.cpp:425-427 | distinct (x, y, ix, iy) own disjoint 4-byte groups |
| `Layout.PixelIndexInBounds` | src/software_renderer.cpp:417-418 | every pixel's 4 bytes lie inside the 4 * w * h render target |
| `Layout.PixelIndexInjective` | src/software_renderer.cpp:417-418 | distinct pixels own disjoint 4-byte groups |
| `Layout.PixelCover` | src/software_renderer.cpp:372 | every byte of the render target belongs to some pixel |
| `Emission.EmitAllAppend` | src/software_renderer.cpp:226-232 | drawing a list of elements is drawing its two parts one after the other |
| `Emission.EmitAllPrefix` | src/software_renderer.cpp:228-230 | the first i + 1 elements draw the first i, then element i |
| `Emission.Emit` | src/software_renderer.cpp:78-113 | the rasterization calls of one element drawn under top * element.transform, by element type; a group draws its children under that product; ellipses and images draw nothing |
| `Emission.EmitAll` | src/software_renderer.cpp:226-232 | the calls of a list of elements, each drawn under the same top, in list order (EmitAllAppend, EmitAllPrefix) |
| `Emission.LastMatrix` | src/software_renderer.cpp:78-113 | the value `transformation` holds after draw_element returns: the matrix pushed for the last element drawn, descending into the last child of a group |
| `Emission.EdgeRun` | src/software_renderer.cpp:204-208 | the first k outline segments, segment i from point i mod n to point (i + 1) mod n, transformed (EdgeRunAt, EdgeRunLength) |
| `Emission.PolylineCmds` | src/software_renderer.cpp:132-144 | the n - 1 open-outline segments in the stroke colour, none when the stroke alpha is 0 (PolylineSegments) |
| `Emission.PolygonCmds` | src/software_renderer.cpp:179-210 | the triangulated fill unless the fill is clear, then the closed outline unless the stroke is clear (PolygonCloses, PolygonPaints) |
| `Emission.RectCmds` | src/software_renderer.cpp:146-177 | triangles (p0, p1, p2), (p2, p1, p3) unless the fill is clear, then the outline p0 -> p1 -> p3 -> p2 -> p0 unless the stroke is clear (RectPaints, RectStrokeIsPolygon) |
| `Emission.TriangleRun` | src/software_renderer.cpp:192-197 | the first j fill triangles, triangle j at transformed corners 3j, 3j + 1, 3j + 2 (TriangleRunAt, TriangleRunLength) |
| `Emission.OutlineCmds` | src/software_renderer.cpp:39-50 | the four black canvas-outline lines between the transformed corners, each corner pushed one unit outwards |
| `Emission.SvgCmds` | src/software_renderer.cpp:28-50 | every element under canvas_to_screen in order, then the canvas outline |
| `Emission.EdgeRunAt` | src/software_renderer.cpp:204-208 | edge i of an outline joins point i mod n and point (i + 1) mod n |
| `Emission.EdgeRunOpen` | src/software_renderer.cpp:138-142 | away from the wrap, edge i joins points i and i + 1 |
| `Emission.EdgeRunLength` | src/software_renderer.cpp:204-208 | k loop passes draw exactly k edges |
| `Emission.PolylineSegments` | src/software_renderer.cpp:132-144 | a polyline of n points draws n - 1 segments (p_i, p_i+1) in the stroke colour, and none when n <= 1 or the stroke alpha is 0 |
| `Emission.PolygonCloses` | src/software_renderer.cpp:200-209 | a polygon outline is the polyline through the same points plus the closing edge (p_n-1, p_0) |
| `Emission.RectStrokeIsPolygon` | src/software_renderer.cpp:168-175 | the rect outline p0 -> p1 -> p3 -> p2 -> p0 is the closed outline through its corners |
| `Emission.TriangleRunAt` | src/software_renderer.cpp:192-197 | triangle j of the fill has corners 3j, 3j + 1 and 3j + 2, transformed |
| `Emission.TriangleRunLength` | src/software_renderer.cpp:192-197 | the fill loop draws one triangle per three corners |
| `Emission.PolylinePaints` | src/software_renderer.cpp:134-143 | a polyline draws only lines, only in the stroke colour, and only when its alpha is not 0 |
| `Emission.RectPaints` | src/software_renderer.cpp:161-175 | a rect draws triangles only in a visible fill colour and lines only in a visible stroke colour |
| `Emission.PolygonPaints` | src/software_renderer.cpp:183-209 | a polygon draws triangles only in a visible fill colour and lines only in a visible stroke colour |
| `Emission.PrimitiveCmds` | src/software_renderer.cpp:78-130 | a point draws one point in its fill colour and a line one line in its stroke colour, whatever the alpha; polylines, rects and polygons skip clear colours; ellipses and images draw nothing |
| `Raster.Store` | src/software_renderer.cpp:419-422 | the four channel stores change exactly bytes i .. i + 3 |
| `Raster.PointEffect` | src/software_renderer.cpp:239-250 | a point keeps the size of the target |
| `Raster.PointWrites` | src/software_renderer.cpp:239-250 | a point writes exactly the 4 bytes of the pixel under it when that pixel is on the target, and nothing otherwise; other bytes are never read |
| `Raster.PointStoresColor` | src/software_renderer.cpp:417-423 | a valid colour lands as floor(channel * 255) in each byte of the pixel |
| `Raster.CoverageWeights` | src/software_renderer.cpp:13-14 | both coverage weights lie in [0, 1]; they sum to 1 outside [0, 1]; inside [0, 1] both are the fractional part |
| `Raster.Fpart` | src/software_renderer.cpp:13 | the `fpart` macro: 1 - (X - floor X) for negative X, X - floor X otherwise |
| `Raster.Rfpart` | src/software_renderer.cpp:14 | `rfpart` as the preprocessor expands it: the conditional tests 1 - X < 0, and the leading `1.0 -` is absorbed into that test |
| `Raster.NormaliseSpec` | src/software_renderer.cpp:282-309 | after normalisation x0 <= x1 and the slope is at most 1; the axes are swapped exactly when the line is steep; the endpoints are the original ones |
| `Raster.Normalise` | src/software_renderer.cpp:282-309 | the segment after the swaps: axes exchanged when |dy| > |dx|, then endpoints ordered by x; the coords flag is the negation of steep (NormaliseSpec) |
| `Raster.Gradient` | src/software_renderer.cpp:255-257 | dy / dx of the normalised segment, taken as 0 when dx is 0 (GradientBound) |
| `Raster.Steps` | src/software_renderer.cpp:261 | how often the x loop runs: floor(x1 - x0) + 1 when x0 <= x1, else 0 (StepsSpec) |
| `Raster.Intery` | src/software_renderer.cpp:259-274 | intery at step k: y0 plus k gradients (InteryInBand) |
| `Raster.PlotAll` | src/software_renderer.cpp:261-275 | a sequence of point plots keeps the size of the target |
| `Raster.LineEffect` | src/software_renderer.cpp:278-314 | a line keeps the size of the target |
| `Raster.GradientBound` | src/software_renderer.cpp:255-257 | after normalisation the gradient lies in [-1, 1] |
| `Raster.StepsSpec` | src/software_renderer.cpp:261 | the loop runs for x0 + k exactly when x0 + k <= x1, so at least once |
| `Raster.InteryInBand` | src/software_renderer.cpp:259-274 | every step's intery lies between the segment's two y values |
| `Raster.LinePlotsLength` | src/software_renderer.cpp:261-275 | k steps make 2k point plots |
| `Raster.LinePlotsAt` | src/software_renderer.cpp:263-272 | plot 2j is at (x0 + j, intery_j) weighted by rfpart and plot 2j + 1 one unit below it weighted by fpart, axes swapped back for steep lines, each with the line's alpha |
| `Raster.LineKeepsAlpha` | src/software_renderer.cpp:263-272 | every plot of a line has the line colour's alpha |
| `Raster.PlotAllAppend` | src/software_renderer.cpp:261-275 | plotting two lists one after the other is plotting their concatenation |
| `Coverage.HitsIyMem` | src/software_renderer.cpp:342-347 | the iy loop fills exactly the covered samples (ix, 0 .. n - 1) of the pixel |
| `Coverage.HitsIxMem` | src/software_renderer.cpp:341-348 | the ix loop fills exactly the covered samples of the pixel |
| `Coverage.HitsColMem` | src/software_renderer.cpp:338-351 | the y loop fills exactly the covered samples of the pixels of its column |
| `Coverage.HitsBoxMem` | src/software_renderer.cpp:335-353 | the x loop fills exactly the covered samples of its columns of the box |
| `Coverage.TriangleHitsMem` | src/software_renderer.cpp:326-353 | a sample is filled exactly when it lies in the inclusive bounding box and either winding's inside test accepts its centre |
| `Coverage.TriangleHits` | src/software_renderer.cpp:326-353 | the samples the four nested loops fill, in loop order, over the inclusive bounding box (TriangleHitsMem, TriangleHitsOnce) |
| `Coverage.SamplePoint` | src/software_renderer.cpp:332-344 | the point (x + size/2 + ix * size, y + size/2 + iy * size), size = 1 / rate, where a sample is tested (SampleInPixel) |
| `Coverage.HitsIyIncreasing` | src/software_renderer.cpp:342-347 | the iy loop visits samples in increasing order |
| `Coverage.HitsIxIncreasing` | src/software_renderer.cpp:341-348 | the ix loop visits samples in increasing order |
| `Coverage.HitsColIncreasing` | src/software_renderer.cpp:338-351 | the y loop visits samples in increasing order |
| `Coverage.HitsBoxIncreasing` | src/software_renderer.cpp:335-353 | the x loop visits samples in increasing order |
| `Coverage.TriangleHitsOnce` | src/software_renderer.cpp:335-353 | the samples go in strictly increasing (x, y, ix, iy) order, so none is blended twice by one triangle |
| `Coverage.SampleInPixel` | src/software_renderer.cpp:332-344 | the point where each sample's coverage is decided lies strictly inside its pixel's square, and its floor is the pixel |
| `Coverage.Unpack` | src/software_renderer.cpp:429-433 | a stored sample read back as a colour has every channel in [0, 1] |
| `Coverage.FillSample` | src/software_renderer.cpp:425-441 | fill_sample keeps the size of the sample buffer |
| `Coverage.FillSampleLocal` | src/software_renderer.cpp:437-440 | fill_sample changes only the 4 bytes of its own sample |
| `Coverage.FillSampleOpaque` | src/software_renderer.cpp:425-441 | an opaque valid colour replaces the sample with floor(channel * 255) |
| `Coverage.FillSampleAlphaGrows` | src/software_renderer.cpp:429-440 | blending never lowers a sample's stored alpha |
| `Coverage.FillAll` | src/software_renderer.cpp:341-347 | a sequence of fill_sample calls keeps the buffer size |
| `Coverage.FillAllAppend` | src/software_renderer.cpp:335-353 | filling two lists one after the other is filling their concatenation |
| `Coverage.FillAllLocal` | src/software_renderer.cpp:335-353 | a byte outside every filled sample keeps its value |
| `Coverage.TriangleHitsFit` | src/software_renderer.cpp:345-346 | for a safe triangle every filled sample lies in the buffer |
| `Coverage.TriangleEffect` | src/software_renderer.cpp:316-355 | a triangle keeps the size of the sample buffer |
| `Coverage.RightEdgeWraps` | src/software_renderer.cpp:427 | sample (ix, iy) of pixel (w, y) has the offset of sample (ix, iy) of pixel (0, y + 1) |
| `Commands.RunCmd` | src/software_renderer.cpp:239-355 | points and lines change only the render target; triangles change only the sample buffer; sizes are kept |
| `Commands.RunCmds` | src/software_renderer.cpp:35-37 | a sequence of calls keeps both buffer sizes |
| `Commands.RunCmdsAppend` | src/software_renderer.cpp:35-37 | running two lists in turn is running their concatenation |
| `Commands.AllSafeAppend` | src/software_renderer.cpp:345-346 | a list of calls stays inside the buffers exactly when both of its parts do |
| `Commands.NoTrianglesKeepSamples` | src/software_renderer.cpp:239-314 | calls without triangles leave the sample buffer unchanged |
| `Commands.TrianglesKeepTarget` | src/software_renderer.cpp:316-355 | triangle calls leave the render target unchanged |
| `Resolution.StepWithin` | src/software_renderer.cpp:383-394 | one fold step keeps the running value within any bounds that hold every sample |
| `Resolution.AccIyWithin` | src/software_renderer.cpp:379-395 | the iy loop keeps the running value within those bounds |
| `Resolution.AccIxWithin` | src/software_renderer.cpp:377-396 | the ix loop keeps the running value within those bounds, and sets it once a sample was read |
| `Resolution.DownsampleWithin` | src/software_renderer.cpp:377-396 | with rate >= 1 a value is always read, and each channel lies between the block's smallest and largest |
| `Resolution.DownsampleUniform` | src/software_renderer.cpp:377-396 | a block of identical samples downsamples to that sample |
| `Resolution.Downsample` | src/software_renderer.cpp:377-396 | the running value the ix and iy loops end with for a pixel's block of samples, or unset when the rate is 0 (DownsampleWithin, DownsampleUniform) |
| `Resolution.Composite` | src/software_renderer.cpp:398-411 | the write-back: the downsampled value over a pixel with a saturated r, g or b; the RMS blend of both on all four channels when the downsampled RGB is not pure white; the pixel unchanged otherwise (CompositeWithin) |
| `Resolution.ResolvedPixel` | src/software_renderer.cpp:372-411 | the pixel's value after resolve: its block downsampled, then composited onto the old pixel (ResolveBounds, ResolveUniform, ResolveSkipsWhite) |
| `Resolution.CompositeWithin` | src/software_renderer.cpp:398-411 | the write-back stays within the bounds of the old pixel and the downsampled value |
| `Resolution.ResolveTarget` | src/software_renderer.cpp:366-415 | resolve keeps the size of the render target |
| `Resolution.ResolvedIsByte` | src/software_renderer.cpp:401-410 | every resolved channel is at most 255, so the `(uint8_t)` cast keeps it |
| `Resolution.ResolveAt` | src/software_renderer.cpp:366-415 | byte k of pixel (x, y) of the result is channel k of that pixel's resolved value |
| `Resolution.StorePixel` | src/software_renderer.cpp:401-410 | the write-back changes exactly the pixel's 4 bytes, each cut to its low 8 bits |
| `Resolution.ResolveTargetHolds` | src/software_renderer.cpp:366-415 | the resolved target holds every pixel's resolved value in that pixel's bytes |
| `Resolution.GoalUnique` | src/software_renderer.cpp:366-415 | any buffer holding every pixel's resolved value is the resolved target |
| `Resolution.ResolveStep` | src/software_renderer.cpp:368-412 | resolving pixel (x, y) reads that pixel's original value, and its stores resolve exactly one more pixel of the column-major walk |
| `Resolution.ResolveBounds` | src/software_renderer.cpp:372-411 | each resolved channel lies between the bounds of the old pixel and of its samples |
| `Resolution.ResolveUniform` | src/software_renderer.cpp:398-404 | on a pixel with a saturated channel a uniform block resolves to its sample |
| `Resolution.ResolveSkipsWhite` | src/software_renderer.cpp:405-411 | a pixel without a saturated channel keeps its value under a block that is pure white in RGB |
| `Renderer.Resize` | src/software_renderer.cpp:62 | the resized buffer has the new length, keeps its prefix and is zero beyond it |
| `Renderer.SoftwareRendererImp.SetSampleRate` | src/software_renderer.cpp:57-64 | stores the rate, sets sample_w and sample_h to target size times rate, and resizes the buffer to 4 * sample_w * sample_h bytes |
| `Renderer.SoftwareRendererImp.SetRenderTarget` | src/software_renderer.cpp:66-76 | adopts the target and its size, and rederives the sample size and buffer from the current rate |
| `Renderer.SoftwareRendererImp.FillPixel` | src/software_renderer.cpp:417-423 | writes the colour into exactly the pixel's 4 bytes |
| `Renderer.WritePixelBytes` | src/software_renderer.cpp:419-422 | the four channel stores at offset i change the target to Raster.Store of it |
| `Renderer.SoftwareRendererImp.RasterizePoint` | src/software_renderer.cpp:239-250 | the target becomes the point's effect |
| `Renderer.SoftwareRendererImp.RasterLine` | src/software_renderer.cpp:252-276 | the loop plots the two points of each of its floor(x1 - x0) + 1 steps, in order |
| `Renderer.SoftwareRendererImp.PlotTwo` | src/software_renderer.cpp:265-266 | two rasterize_point calls in a row leave the target as plotting the pair |
| `Renderer.SoftwareRendererImp.PlotStepPair` | src/software_renderer.cpp:263-272 | one pass of the x loop extends the plotted prefix from k steps to k + 1, in either axis order |
| `Renderer.SoftwareRendererImp.RasterizeLine` | src/software_renderer.cpp:278-314 | the in-place swaps and raster_line draw the normalised segment |
| `Renderer.SoftwareRendererImp.FillSampleColumn` | src/software_renderer.cpp:342-347 | the iy loop fills the column's covered samples in order |
| `Renderer.SoftwareRendererImp.FillIfCovered` | src/software_renderer.cpp:343-346 | one pass of the iy loop: the sample is filled exactly when either winding covers its test point, extending the filled prefix by one |
| `Renderer.SoftwareRendererImp.FillPixelSamples` | src/software_renderer.cpp:341-348 | the ix loop fills the pixel's covered samples in order |
| `Renderer.SoftwareRendererImp.FillTriangleColumn` | src/software_renderer.cpp:337-351 | the y loop fills the covered samples of the box's column in order |
| `Renderer.SoftwareRendererImp.RasterizeTriangle` | src/software_renderer.cpp:316-355 | the sample buffer becomes the triangle's effect: every covered sample of the box blended once, in loop order |
| `Renderer.SoftwareRendererImp.FillSample` | src/software_renderer.cpp:425-441 | the sample is blended with the colour and stored back |
| `Renderer.SoftwareRendererImp.DownsampleColumn` | src/software_renderer.cpp:379-395 | the iy loop folds the column's samples into the running value |
| `Renderer.SoftwareRendererImp.CellIndex` | src/software_renderer.cpp:381-385 | `real_index + sindex` is the sample's first byte, with its 4 bytes inside the sample buffer |
| `Renderer.SoftwareRendererImp.FoldSample` | src/software_renderer.cpp:381-394 | the first sample read is taken as it is; later ones are RMS-blended on r, g, b and averaged on a |
| `Renderer.SoftwareRendererImp.DownsamplePixel` | src/software_renderer.cpp:372-396 | the loops leave the downsampled value of the pixel's block |
| `Renderer.SoftwareRendererImp.ResolvePixel` | src/software_renderer.cpp:372-411 | the pixel's 4 bytes get its resolved value and nothing else changes |
| `Renderer.SoftwareRendererImp.WritePixel` | src/software_renderer.cpp:401-404 | the four `(uint8_t)` stores change exactly bytes i .. i + 3 |
| `Renderer.SoftwareRendererImp.ResolveColumn` | src/software_renderer.cpp:370-412 | after column x every pixel of columns 0 .. x holds its resolved value and the rest are untouched |
| `Renderer.SoftwareRendererImp.Resolve` | src/software_renderer.cpp:366-415 | the render target becomes the resolved target of the old target and the sample buffer |
| `Renderer.SoftwareRendererImp.DrawPoint` | src/software_renderer.cpp:117-122 | one point at the transformed position in the fill colour |
| `Renderer.SoftwareRendererImp.DrawLine` | src/software_renderer.cpp:124-130 | one line between the transformed endpoints in the stroke colour |
| `Renderer.SoftwareRendererImp.DrawPolyline` | src/software_renderer.cpp:132-144 | the buffers become the effect of the polyline's segments |
| `Renderer.SoftwareRendererImp.DrawEdges` | src/software_renderer.cpp:204-208 | the edge loop draws the first k edges in order |
| `Renderer.SoftwareRendererImp.DrawEdge` | src/software_renderer.cpp:205-207 | one loop pass draws the line from point i mod n to point (i + 1) mod n, transformed |
| `Renderer.SoftwareRendererImp.DrawTriangles` | src/software_renderer.cpp:192-197 | the triangle loop draws every triangle of the corner list in order |
| `Renderer.SoftwareRendererImp.DrawTriangleAt` | src/software_renderer.cpp:193-196 | one loop pass draws triangle j at corners 3j .. 3j + 2, extending the drawn prefix from j triangles to j + 1 |
| `Renderer.SoftwareRendererImp.DrawPolygon` | src/software_renderer.cpp:179-210 | the triangulated fill, then the closed outline |
| `Renderer.SoftwareRendererImp.DrawRectFill` | src/software_renderer.cpp:163-166 | triangles (p0, p1, p2) then (p2, p1, p3) |
| `Renderer.SoftwareRendererImp.DrawRectStroke` | src/software_renderer.cpp:170-175 | lines p0 -> p1 -> p3 -> p2 -> p0 |
| `Renderer.SoftwareRendererImp.DrawRect` | src/software_renderer.cpp:146-177 | the fill unless clear, then the outline unless clear |
| `Renderer.SoftwareRendererImp.DrawGroup` | src/software_renderer.cpp:226-232 | the children in order under the current top; the stack is restored |
| `Renderer.SoftwareRendererImp.DrawChild` | src/software_renderer.cpp:228-230 | one pass of an element loop extends the drawn prefix by one element and leaves the stack as it was |
| `Renderer.SoftwareRendererImp.DrawElement` | src/software_renderer.cpp:78-113 | the element is drawn under top * element.transform; the stack is as before; transformation is the last matrix set |
| `Renderer.SoftwareRendererImp.PushMatrix` | src/software_renderer.cpp:80-81 | the matrix is pushed and becomes `transformation` |
| `Renderer.SoftwareRendererImp.PopMatrix` | src/software_renderer.cpp:112 | the top is popped and `transformation` is left as it was |
| `Renderer.SoftwareRendererImp.DrawElementSwitch` | src/software_renderer.cpp:83-110 | the type switch dispatches each kind to its routine; ellipses and images draw nothing |
| `Renderer.SoftwareRendererImp.DrawCanvasOutline` | src/software_renderer.cpp:41-50 | four black lines between the canvas corners, each pushed one unit outwards |
| `Renderer.SoftwareRendererImp.DrawOutlineLines` | src/software_renderer.cpp:47-50 | four black lines a-b, a-c, d-b, d-c, in that order |
| `Renderer.SoftwareRendererImp.DrawSvgElements` | src/software_renderer.cpp:35-37 | the elements in order under canvas_to_screen; the stack is again just canvas_to_screen |
| `Renderer.SoftwareRendererImp.DrawSvg` | src/software_renderer.cpp:28-55 | stack reset, all elements, the canvas outline, then resolve; the top is canvas_to_screen again |

## Left out

- Floating point: every `float` is an exact real. Rounding, infinities, NaN and the inexact add/subtract swaps of `rasterize_line` are not modelled, and neither is the float accumulation of `intery`, which the model writes as y0 + k * gradient.
- `raster_line` with dx == 0 divides by zero in floats; only one step runs there and the gradient is never read, so the model gives it gradient 0.
- `bright_color`'s HSV arithmetic (src/colormanipulation.cpp:13-78) is not modelled. The renderer takes it as a function parameter, and the model keeps only the fact that it returns its input's alpha (line 79).
- The real-valued `blend` macro used by `avg` (sqrt and pow on floats) is a function parameter known only to return v on (v, v) and to lie between its operands. The integer `blend` used by `resolve` is modelled exactly.
- `triangulate` and `inside` are declared in src/triangulation.h without bodies. They are parameters: `triangulate` returns a multiple of three corners, and `inside` is any predicate.
- The headers for Matrix3x3, Vector2D, Color, SVG and the renderer class are not part of this model. `transform(p)` is taken as the affine part of the matrix, and a default-constructed Color as opaque black. The renderer's constructor starts from rate 1 and an empty 0 x 0 target.
- Renderer.SoftwareRendererImp.constructor: the source's default field values live in the absent header, so they are a choice of this model.
- The `canvas_to_screen` setter and the viewport-to-renderer wiring live outside the modelled files. `canvasToScreen` is a field that the caller sets.
- `draw_ellipse` and `rasterize_image` are empty stubs. `draw_image` therefore draws nothing and is modelled as such.
- The `random_float` macro is never used.
- Renderer.SoftwareRendererImp.RasterizeTriangle: `fill_sample` has no bounds check, so a triangle whose box sticks out of the target writes outside the sample buffer (undefined behaviour). The method requires that every sample it fills lies inside the buffer (TriangleSafe). The drawing methods require the same of every triangle they draw (AllSafe), and the wrap-around at the right edge is shown separately by Coverage.RightEdgeWraps.
- Renderer.SoftwareRendererImp.Resolve: with sample rate 0 `resolve` reads uninitialised ints. The model takes them as 0, and the bounds lemmas require rate >= 1.
- Viewport.ViewportImp.SetViewbox: requires span != 0, since the float division would otherwise give an infinity.
- Viewport.ViewportImp.UpdateViewbox: requires span * scale != 0 for the same reason.
- Bytes.ToByte: C++ leaves `(uint8_t)` of a float outside [0, 256) undefined. The model's reading (truncate toward zero, then keep the low 8 bits) is a choice, not the source's promise; only in-range values are given their defined meaning (`Bytes.ToByteUnit`).
- Renderer.SoftwareRendererImp.FillPixel: a colour channel outside [0, 1] reaches this cast. `bright_color` is constrained only on alpha, so `raster_line` can pass one, and style colours are not required to be in range, so `draw_point` and `draw_line` can too. The bytes stored for such a channel are the model's reading of an undefined conversion.
- Coverage.FillSample: the same holds for a fill colour outside [0, 1]: the stored bytes follow the model's reading of the undefined cast.
- The matrix product's associativity is not proved. The model only ever composes `top * element.transform` as the source does.
