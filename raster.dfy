/** rasterize_point, fill_pixel, rasterize_line and raster_line as functions
    from the render target before a call to the render target after it.
    Coordinates are screen coordinates; floats are exact reals. */
module Raster {
  import opened Geometry
  import opened Bytes
  import opened Layout
  import opened Colors
  import opened Svg

  /** What the rasterizers read of the renderer: the target size, the
      sample rate and the two external colour/geometry helpers. */
  datatype Config = Config(w: nat, h: nat, rate: nat, bright: BrightFn, inside: InsideTest)

  /** Channel k of a colour: r, g, b, a for k = 0, 1, 2, 3. */
  function Channel(c: Color, k: int): real
  {
    if k == 0 then c.r else if k == 1 then c.g else if k == 2 then c.b else c.a
  }

  /** The four `(uint8_t) (channel * 255)` stores of fill_pixel and
      fill_sample at byte offset i. */
  function Store(buf: seq<byte>, i: int, c: Color): (r: seq<byte>)
    requires 0 <= i && i + 4 <= |buf|
    ensures |r| == |buf|
    ensures forall j :: 0 <= j < |buf| ==>
      r[j] == if i <= j < i + 4 then ToByte(Channel(c, j - i) * 255.0) else buf[j]
  {
    buf[i := ToByte(c.r * 255.0)][i + 1 := ToByte(c.g * 255.0)]
       [i + 2 := ToByte(c.b * 255.0)][i + 3 := ToByte(c.a * 255.0)]
  }

  /** Whether rasterize_point's bounds check lets pixel (sx, sy) through. */
  predicate OnTarget(cfg: Config, sx: int, sy: int)
  {
    0 <= sx < cfg.w && 0 <= sy < cfg.h
  }

  /** rasterize_point(x, y, c): fill the pixel whose square contains (x, y),
      or do nothing when that pixel lies off the target. */
  function PointEffect(cfg: Config, t: seq<byte>, x: real, y: real, c: Color): (r: seq<byte>)
    requires |t| == 4 * cfg.w * cfg.h
    ensures |r| == |t|
  {
    var sx, sy := Floor(x), Floor(y);
    if !OnTarget(cfg, sx, sy) then t
    else
      PixelIndexInBounds(cfg.w, cfg.h, sx, sy);
      Store(t, PixelIndex(cfg.w, sx, sy), c)
  }

  /** A point writes exactly the four bytes of the pixel under it when that
      pixel is on the target, and those bytes hold the colour scaled to
      [0, 255]; every other byte keeps its value. */
  lemma PointWrites(cfg: Config, t: seq<byte>, x: real, y: real, c: Color)
    requires |t| == 4 * cfg.w * cfg.h
    ensures var r := PointEffect(cfg, t, x, y, c);
      var p := PixelIndex(cfg.w, x.Floor, y.Floor);
      && (!OnTarget(cfg, x.Floor, y.Floor) ==> r == t)
      && (OnTarget(cfg, x.Floor, y.Floor) ==>
            forall j :: 0 <= j < |t| ==>
              r[j] == if p <= j < p + 4 then ToByte(Channel(c, j - p) * 255.0) else t[j])
  {
  }

  /** A valid colour is stored as floor(channel * 255) in every byte of the
      pixel. */
  lemma PointStoresColor(cfg: Config, t: seq<byte>, x: real, y: real, c: Color, k: int)
    requires |t| == 4 * cfg.w * cfg.h
    requires ValidColor(c) && 0 <= k < 4 && OnTarget(cfg, x.Floor, y.Floor)
    ensures PixelIndex(cfg.w, x.Floor, y.Floor) + k < |t|
    ensures PointEffect(cfg, t, x, y, c)[PixelIndex(cfg.w, x.Floor, y.Floor) + k] as int
         == (Channel(c, k) * 255.0).Floor
  {
    PixelIndexInBounds(cfg.w, cfg.h, x.Floor, y.Floor);
    ToByteUnit(Channel(c, k));
  }

  /** The `fpart` macro. */
  function Fpart(v: real): real
  {
    if v < 0.0 then 1.0 - (v - Floor(v) as real) else v - Floor(v) as real
  }

  /** The `rfpart` macro as the preprocessor expands it: `1.0 - fpart(X)`
      becomes `1.0 - X < 0 ? 1 - (X - floor(X)) : X - floor(X)`, because the
      conditional operator binds more loosely than the subtraction. */
  function Rfpart(v: real): real
  {
    if 1.0 - v < 0.0 then 1.0 - (v - Floor(v) as real) else v - Floor(v) as real
  }

  /** The two coverage weights a line step passes to bright_color: both lie
      in [0, 1]; they add up to 1 when the y coordinate lies outside [0, 1],
      and inside [0, 1] both are its fractional part. */
  lemma CoverageWeights(v: real)
    ensures 0.0 <= Fpart(v) <= 1.0 && 0.0 <= Rfpart(v) <= 1.0
    ensures v < 0.0 || v > 1.0 ==> Fpart(v) + Rfpart(v) == 1.0
    ensures 0.0 <= v <= 1.0 ==> Fpart(v) == Rfpart(v) == v - Floor(v) as real
  {
  }

  /** A line after rasterize_line's normalisation: x0 <= x1, the slope is at
      most 1 in magnitude, and `coords` is false when x and y were swapped. */
  datatype Segment = Segment(x0: real, y0: real, x1: real, y1: real, coords: bool)

  /** rasterize_line's octant reduction: swap x and y for a steep line,
      then order the endpoints by x. */
  function Normalise(x0: real, y0: real, x1: real, y1: real): Segment
  {
    var steep := Abs(y1 - y0) > Abs(x1 - x0);
    var a0 := if steep then y0 else x0;
    var b0 := if steep then x0 else y0;
    var a1 := if steep then y1 else x1;
    var b1 := if steep then x1 else y1;
    if a0 > a1 then Segment(a1, b1, a0, b0, !steep) else Segment(a0, b0, a1, b1, !steep)
  }

  /** A point of a segment in screen coordinates (undoing the swap). */
  function Screen(s: Segment, u: real, v: real): Vec2
  {
    if s.coords then Vec2(u, v) else Vec2(v, u)
  }

  /** The normalised segment has x0 <= x1 and |y1 - y0| <= x1 - x0, swaps
      the axes exactly when the line is steep, and has the original two
      endpoints, in one order or the other. */
  lemma NormaliseSpec(x0: real, y0: real, x1: real, y1: real)
    ensures var s := Normalise(x0, y0, x1, y1);
      var e0, e1 := Screen(s, s.x0, s.y0), Screen(s, s.x1, s.y1);
      && s.x0 <= s.x1
      && Abs(s.y1 - s.y0) <= s.x1 - s.x0
      && (s.coords <==> Abs(y1 - y0) <= Abs(x1 - x0))
      && ((e0 == Vec2(x0, y0) && e1 == Vec2(x1, y1)) || (e0 == Vec2(x1, y1) && e1 == Vec2(x0, y0)))
  {
  }

  /** raster_line's gradient. When dx is 0 only one step runs and the
      gradient is never used, so that case is given gradient 0. */
  function Gradient(s: Segment): real
  {
    if s.x1 - s.x0 == 0.0 then 0.0 else (s.y1 - s.y0) / (s.x1 - s.x0)
  }

  /** How often `for (x = x0; x <= x1; x++)` runs. */
  function Steps(s: Segment): nat
  {
    if s.x0 <= s.x1 then Floor(s.x1 - s.x0) + 1 else 0
  }

  /** The y value (`intery`) at step k. */
  function Intery(s: Segment, k: nat): real
  {
    s.y0 + k as real * Gradient(s)
  }

  /** One rasterize_point call. */
  datatype Plot = Plot(x: real, y: real, c: Color)

  /** Step k of raster_line: the pixel the line passes through, weighted by
      rfpart, and the one below it, weighted by fpart. */
  function StepPlots(bright: BrightFn, s: Segment, c: Color, k: nat): seq<Plot>
  {
    var x, iy := s.x0 + k as real, Intery(s, k);
    var p0, p1 := Screen(s, x, iy), Screen(s, x, iy + 1.0);
    [Plot(p0.x, p0.y, bright(c, Rfpart(iy))), Plot(p1.x, p1.y, bright(c, Fpart(iy)))]
  }

  /** The rasterize_point calls of raster_line's first k steps. */
  function LinePlots(bright: BrightFn, s: Segment, c: Color, k: nat): seq<Plot>
  {
    if k == 0 then [] else LinePlots(bright, s, c, k - 1) + StepPlots(bright, s, c, k - 1)
  }

  /** A list of rasterize_point calls, in order. */
  function PlotAll(cfg: Config, t: seq<byte>, ps: seq<Plot>): (r: seq<byte>)
    requires |t| == 4 * cfg.w * cfg.h
    ensures |r| == |t|
  {
    if ps == [] then t
    else
      var q := ps[|ps| - 1];
      PointEffect(cfg, PlotAll(cfg, t, ps[..|ps| - 1]), q.x, q.y, q.c)
  }

  /** rasterize_line(x0, y0, x1, y1, c). */
  function LineEffect(cfg: Config, t: seq<byte>, x0: real, y0: real, x1: real, y1: real, c: Color): (r: seq<byte>)
    requires |t| == 4 * cfg.w * cfg.h
    ensures |r| == |t|
  {
    var s := Normalise(x0, y0, x1, y1);
    PlotAll(cfg, t, LinePlots(cfg.bright, s, c, Steps(s)))
  }

  /** After normalisation the gradient lies in [-1, 1]. */
  lemma GradientBound(x0: real, y0: real, x1: real, y1: real)
    ensures -1.0 <= Gradient(Normalise(x0, y0, x1, y1)) <= 1.0
  {
    var s := Normalise(x0, y0, x1, y1);
    NormaliseSpec(x0, y0, x1, y1);
    var dx, dy := s.x1 - s.x0, s.y1 - s.y0;
    if dx != 0.0 {
      SlopeBound(dy, dx);
    }
  }

  /** |dy| <= dx gives |dy / dx| <= 1. */
  lemma SlopeBound(dy: real, dx: real)
    requires dx > 0.0 && -dx <= dy <= dx
    ensures -1.0 <= dy / dx <= 1.0
  {
    var g := dy / dx;
    assert g * dx == dy;
  }

  /** The loop runs once for x0 + k with k = 0, 1, ... up to x1, so it
      always runs at least once on a normalised segment. */
  lemma StepsSpec(s: Segment, k: nat)
    requires s.x0 <= s.x1
    ensures Steps(s) >= 1
    ensures k < Steps(s) <==> s.x0 + k as real <= s.x1
  {
  }

  /** Every step keeps intery between the segment's two y values. */
  lemma InteryInBand(x0: real, y0: real, x1: real, y1: real, k: nat)
    requires k < Steps(Normalise(x0, y0, x1, y1))
    ensures var s := Normalise(x0, y0, x1, y1);
      Geometry.Min(s.y0, s.y1) <= Intery(s, k) <= Geometry.Max(s.y0, s.y1)
  {
    var s := Normalise(x0, y0, x1, y1);
    NormaliseSpec(x0, y0, x1, y1);
    StepsSpec(s, k);
    var dx, dy := s.x1 - s.x0, s.y1 - s.y0;
    if dx != 0.0 {
      PartialRise(dy, dx, k as real);
    }
  }

  /** k steps of dy / dx with 0 <= k <= dx rise by an amount between 0 and
      dy. */
  lemma PartialRise(dy: real, dx: real, k: real)
    requires dx > 0.0 && 0.0 <= k <= dx
    ensures Geometry.Min(0.0, dy) <= k * (dy / dx) <= Geometry.Max(0.0, dy)
  {
    var t := k / dx;
    assert t * dx == k;
    assert 0.0 <= t <= 1.0;
    assert k * (dy / dx) == t * dy;
    if dy >= 0.0 {
      ScaleBelow(dy, t);
    } else {
      ScaleBelow(-dy, t);
      assert t * -dy == -(t * dy);
    }
  }

  lemma {:induction false} LinePlotsLength(bright: BrightFn, s: Segment, c: Color, k: nat)
    ensures |LinePlots(bright, s, c, k)| == 2 * k
  {
    if k > 0 {
      LinePlotsLength(bright, s, c, k - 1);
    }
  }

  /** raster_line issues two rasterize_point calls per step: call 2j is the
      pixel at (x0 + j, intery_j) and call 2j + 1 the one below it (axes
      swapped back for steep lines); each has the line's alpha. */
  lemma {:induction false} LinePlotsAt(bright: BrightFn, s: Segment, c: Color, k: nat, j: nat)
    requires j < k
    ensures |LinePlots(bright, s, c, k)| == 2 * k
    ensures var ps := LinePlots(bright, s, c, k);
      var x, iy := s.x0 + j as real, Intery(s, j);
      && Vec2(ps[2 * j].x, ps[2 * j].y) == Screen(s, x, iy)
      && Vec2(ps[2 * j + 1].x, ps[2 * j + 1].y) == Screen(s, x, iy + 1.0)
      && ps[2 * j].c == bright(c, Rfpart(iy))
      && ps[2 * j + 1].c == bright(c, Fpart(iy))
      && ps[2 * j].c.a == c.a && ps[2 * j + 1].c.a == c.a
  {
    LinePlotsLength(bright, s, c, k);
    if j < k - 1 {
      LinePlotsAt(bright, s, c, k - 1, j);
    } else {
      LinePlotsLength(bright, s, c, k - 1);
    }
  }

  /** Anti-aliasing changes brightness only: every pixel a line plots has
      the line colour's alpha. */
  lemma {:induction false} LineKeepsAlpha(bright: BrightFn, s: Segment, c: Color, k: nat)
    ensures forall i :: 0 <= i < |LinePlots(bright, s, c, k)| ==> LinePlots(bright, s, c, k)[i].c.a == c.a
  {
    if k > 0 {
      LineKeepsAlpha(bright, s, c, k - 1);
    }
  }

  /** Plotting a list then another is plotting their concatenation. */
  lemma {:induction false} PlotAllAppend(cfg: Config, t: seq<byte>, ps: seq<Plot>, qs: seq<Plot>)
    requires |t| == 4 * cfg.w * cfg.h
    ensures PlotAll(cfg, t, ps + qs) == PlotAll(cfg, PlotAll(cfg, t, ps), qs)
    decreases |qs|
  {
    if qs != [] {
      assert (ps + qs)[..|ps + qs| - 1] == ps + qs[..|qs| - 1];
      PlotAllAppend(cfg, t, ps, qs[..|qs| - 1]);
    } else {
      assert ps + qs == ps;
    }
  }
}
