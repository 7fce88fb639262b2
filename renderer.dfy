/** SoftwareRendererImp: the renderer object, its buffers and its transform
    stack, with each member function proved against the functional model of
    what it draws. */
module Renderer {
  import opened Geometry
  import opened Bytes
  import opened Layout
  import opened Colors
  import opened Svg
  import opened Emission
  import opened Raster
  import opened Coverage
  import opened Commands
  import opened Resolution

  /** std::vector<unsigned char>::resize: the prefix stays, new bytes are 0. */
  function Resize(s: seq<byte>, n: nat): (r: seq<byte>)
    ensures |r| == n
    ensures forall i :: 0 <= i < n ==> r[i] == if i < |s| then s[i] else 0
  {
    if n <= |s| then s[..n] else s + seq(n - |s|, _ => 0 as byte)
  }

  /** The four stores of fill_pixel at byte offset i of the target. */
  method WritePixelBytes(a: array<byte>, i: int, c: Color)
    requires 0 <= i && i + 4 <= a.Length
    modifies a
    ensures a[..] == Store(old(a[..]), i, c)
  {
    a[i] := ToByte(c.r * 255.0);
    a[i + 1] := ToByte(c.g * 255.0);
    a[i + 2] := ToByte(c.b * 255.0);
    a[i + 3] := ToByte(c.a * 255.0);
  }

  lemma PlotAllTwo(cfg: Config, t: seq<byte>, p: Plot, q: Plot)
    requires |t| == 4 * cfg.w * cfg.h
    ensures PlotAll(cfg, t, [p, q]) == PointEffect(cfg, PointEffect(cfg, t, p.x, p.y, p.c), q.x, q.y, q.c)
  {
    assert [p][..0] == [];
    assert PlotAll(cfg, t, [p]) == PointEffect(cfg, t, p.x, p.y, p.c);
    assert [p, q][..1] == [p];
  }

  lemma InteryStep(s: Segment, k: nat)
    ensures Intery(s, k + 1) == Intery(s, k) + Gradient(s)
  {
    assert (k + 1) as real * Gradient(s) == k as real * Gradient(s) + Gradient(s);
  }

  /** Writing back a pixel's own bytes changes nothing. */
  lemma StoreUnchanged(t: seq<byte>, i: int)
    requires 0 <= i && i + 4 <= |t|
    ensures StorePixel(t, i, Cell(t, i)) == t
  {
    assert forall j :: 0 <= j < |t| ==> StorePixel(t, i, Cell(t, i))[j] == t[j];
  }

  /** A polyline's segments as draw_polyline's loop bound gives them: none
      when the stroke is clear, else the first max(n - 1, 0) edges. */
  lemma PolylineRun(m: Matrix, pts: seq<Vec2>, style: Style)
    ensures PolylineCmds(m, pts, style)
         == if style.strokeColor.a != 0.0 then EdgeRun(m, pts, style.strokeColor, if |pts| > 0 then |pts| - 1 else 0) else []
  {
  }

  /** Filling sample (ix, iy) of a pixel, if covered, after samples
      (ix, 0) .. (ix, iy - 1). */
  lemma SampleStep(cfg: Config, b0: seq<byte>, c: Color, t: Triangle, s: Sample, before: seq<byte>, after: seq<byte>)
    requires s.iy >= 0
    requires before == FillAll(cfg, b0, c, HitsIy(cfg, t, s.x, s.y, s.ix, s.iy))
    requires Covered(cfg.inside, t, SamplePoint(cfg.rate, s)) ==>
      CellFits(cfg, |before|, s) && after == Coverage.FillSample(cfg, before, c, s)
    requires !Covered(cfg.inside, t, SamplePoint(cfg.rate, s)) ==> after == before
    ensures after == FillAll(cfg, b0, c, HitsIy(cfg, t, s.x, s.y, s.ix, s.iy + 1))
  {
    var tail := if Covered(cfg.inside, t, SamplePoint(cfg.rate, s)) then [s] else [];
    if tail != [] {
      FillAllOne(cfg, before, c, s);
    }
    FillAllAppend(cfg, b0, c, HitsIy(cfg, t, s.x, s.y, s.ix, s.iy), tail);
  }

  /** Filling sample column ix of a pixel after columns 0 .. ix - 1. */
  lemma PixelStep(cfg: Config, b0: seq<byte>, c: Color, t: Triangle, x: int, y: int, ix: nat,
                  before: seq<byte>, after: seq<byte>)
    requires before == FillAll(cfg, b0, c, HitsIx(cfg, t, x, y, ix))
    requires after == FillAll(cfg, before, c, HitsIy(cfg, t, x, y, ix, cfg.rate))
    ensures after == FillAll(cfg, b0, c, HitsIx(cfg, t, x, y, ix + 1))
  {
    FillAllAppend(cfg, b0, c, HitsIx(cfg, t, x, y, ix), HitsIy(cfg, t, x, y, ix, cfg.rate));
  }

  /** Filling pixel (x, y) after pixels (x, YMin) .. (x, y - 1). */
  lemma ColumnStep(cfg: Config, b0: seq<byte>, c: Color, t: Triangle, x: int, y: int,
                   before: seq<byte>, after: seq<byte>)
    requires YMin(t) <= y
    requires before == FillAll(cfg, b0, c, HitsCol(cfg, t, x, YMin(t), y))
    requires after == FillAll(cfg, before, c, HitsIx(cfg, t, x, y, cfg.rate))
    ensures after == FillAll(cfg, b0, c, HitsCol(cfg, t, x, YMin(t), y + 1))
  {
    FillAllAppend(cfg, b0, c, HitsCol(cfg, t, x, YMin(t), y), HitsIx(cfg, t, x, y, cfg.rate));
  }

  /** Filling column x of the box after columns XMin .. x - 1. */
  lemma BoxStep(cfg: Config, b0: seq<byte>, c: Color, t: Triangle, x: int, before: seq<byte>, after: seq<byte>)
    requires XMin(t) <= x
    requires before == FillAll(cfg, b0, c, HitsBox(cfg, t, XMin(t), x))
    requires after == FillAll(cfg, before, c, HitsCol(cfg, t, x, YMin(t), YMax(t) + 1))
    ensures after == FillAll(cfg, b0, c, HitsBox(cfg, t, XMin(t), x + 1))
  {
    FillAllAppend(cfg, b0, c, HitsBox(cfg, t, XMin(t), x), HitsCol(cfg, t, x, YMin(t), YMax(t) + 1));
  }

  /** Drawing edge i after the first i edges is drawing the first i + 1. */
  lemma EdgeStep(cfg: Config, b0: Buffers, m: Matrix, pts: seq<Vec2>, c: Color, i: nat, before: Buffers, after: Buffers)
    requires |b0.target| == 4 * cfg.w * cfg.h && i < |pts|
    requires before == RunCmds(cfg, b0, EdgeRun(m, pts, c, i))
    requires after == RunCmd(cfg, before, LineCmd(Apply(m, pts[i % |pts|]), Apply(m, pts[(i + 1) % |pts|]), c))
    ensures after == RunCmds(cfg, b0, EdgeRun(m, pts, c, i + 1))
  {
    EdgeRunStep(m, pts, c, i);
    RunCmdsSnoc(cfg, b0, EdgeRun(m, pts, c, i), LineCmd(Apply(m, pts[i % |pts|]), Apply(m, pts[(i + 1) % |pts|]), c));
  }

  /** Drawing triangle j after the first j triangles is drawing the first
      j + 1. */
  lemma TriangleStep(cfg: Config, b0: Buffers, m: Matrix, corners: seq<Vec2>, c: Color, j: nat,
                     before: Buffers, after: Buffers)
    requires |b0.target| == 4 * cfg.w * cfg.h && 3 * j + 3 <= |corners|
    requires before == RunCmds(cfg, b0, TriangleRun(m, corners, c, j))
    requires after == RunCmd(cfg, before, TriangleCmd(Triangle(Apply(m, corners[3 * j]), Apply(m, corners[3 * j + 1]),
                                                               Apply(m, corners[3 * j + 2])), c))
    ensures after == RunCmds(cfg, b0, TriangleRun(m, corners, c, j + 1))
  {
    TriangleRunStep(m, corners, c, j);
    RunCmdsSnoc(cfg, b0, TriangleRun(m, corners, c, j),
                TriangleCmd(Triangle(Apply(m, corners[3 * j]), Apply(m, corners[3 * j + 1]), Apply(m, corners[3 * j + 2])), c));
  }

  /** Four calls in a row are the list of the four. */
  lemma RunFour(cfg: Config, b0: Buffers, cmds: seq<Cmd>, b1: Buffers, b2: Buffers, b3: Buffers, b4: Buffers)
    requires |b0.target| == 4 * cfg.w * cfg.h && |cmds| == 4
    requires b1 == RunCmd(cfg, b0, cmds[0])
    requires b2 == RunCmd(cfg, b1, cmds[1])
    requires b3 == RunCmd(cfg, b2, cmds[2])
    requires b4 == RunCmd(cfg, b3, cmds[3])
    ensures b4 == RunCmds(cfg, b0, cmds)
  {
    RunCmdsStep(cfg, b0, [], cmds[0], b0, b1);
    assert [] + [cmds[0]] == cmds[..1];
    RunCmdsStep(cfg, b0, cmds[..1], cmds[1], b1, b2);
    assert cmds[..1] + [cmds[1]] == cmds[..2];
    RunCmdsStep(cfg, b0, cmds[..2], cmds[2], b2, b3);
    assert cmds[..2] + [cmds[2]] == cmds[..3];
    RunCmdsStep(cfg, b0, cmds[..3], cmds[3], b3, b4);
    assert cmds[..3] + [cmds[3]] == cmds;
  }

  class SoftwareRendererImp {
    /** The colour and geometry helpers the renderer calls. */
    const bright: BrightFn
    const inside: InsideTest
    const triangulate: Triangulator

    var targetW: nat
    var targetH: nat
    var sampleRate: nat
    var sampleW: nat
    var sampleH: nat
    var sampleBuffer: seq<byte>
    var renderTarget: array<byte>
    var tmatrix: seq<Matrix>
    var transformation: Matrix
    var canvasToScreen: Matrix

    /** The sample buffer holds 4 bytes for each of the (w * rate) x
        (h * rate) samples; the target 4 bytes for each of its w x h pixels. */
    ghost predicate Valid()
      reads this`sampleW, this`sampleH, this`targetW, this`targetH, this`sampleRate, this`sampleBuffer, this`renderTarget
    {
      && sampleW == targetW * sampleRate && sampleH == targetH * sampleRate
      && |sampleBuffer| == 4 * sampleW * sampleH
      && renderTarget.Length == 4 * targetW * targetH
    }

    function Cfg(): Config
      reads this`targetW, this`targetH, this`sampleRate
    {
      Config(targetW, targetH, sampleRate, bright, inside)
    }

    function Bufs(): Buffers
      reads this`renderTarget, this`sampleBuffer, renderTarget
    {
      Buffers(renderTarget[..], sampleBuffer)
    }

    /** software_renderer.h is not part of this model: the renderer starts
        with one sample per pixel and a 0 x 0 target. */
    constructor (bright: BrightFn, inside: InsideTest, triangulate: Triangulator)
      ensures Valid() && this.bright == bright && this.inside == inside && this.triangulate == triangulate
      ensures sampleRate == 1 && targetW == 0 && targetH == 0 && sampleBuffer == [] && tmatrix == []
    {
      this.bright := bright;
      this.inside := inside;
      this.triangulate := triangulate;
      targetW, targetH, sampleRate, sampleW, sampleH := 0, 0, 1, 0, 0;
      sampleBuffer := [];
      renderTarget := new byte[0];
      tmatrix := [];
      transformation, canvasToScreen := Identity, Identity;
    }

    /** set_sample_rate: the sample buffer is resized to the new rate. */
    method SetSampleRate(rate: nat)
      requires renderTarget.Length == 4 * targetW * targetH
      modifies this`sampleRate, this`sampleW, this`sampleH, this`sampleBuffer
      ensures Valid() && sampleRate == rate
      ensures sampleBuffer == Resize(old(sampleBuffer), 4 * (targetW * rate) * (targetH * rate))
    {
      sampleRate := rate;
      sampleW := targetW * rate;
      sampleH := targetH * rate;
      sampleBuffer := Resize(sampleBuffer, 4 * sampleW * sampleH);
    }

    /** set_render_target: adopt the caller's w x h RGBA buffer and resize
        the sample buffer to match. */
    method SetRenderTarget(target: array<byte>, width: nat, height: nat)
      requires target.Length == 4 * width * height
      modifies this`renderTarget, this`targetW, this`targetH, this`sampleW, this`sampleH, this`sampleBuffer
      ensures Valid() && renderTarget == target && targetW == width && targetH == height
      ensures sampleBuffer == Resize(old(sampleBuffer), 4 * (width * sampleRate) * (height * sampleRate))
    {
      renderTarget := target;
      targetW := width;
      targetH := height;
      sampleW := width * sampleRate;
      sampleH := height * sampleRate;
      sampleBuffer := Resize(sampleBuffer, 4 * sampleW * sampleH);
    }

    /** fill_pixel: store the colour in pixel (sx, sy) of the target. */
    method FillPixel(sx: int, sy: int, c: Color)
      requires Valid() && 0 <= sx < targetW && 0 <= sy < targetH
      modifies renderTarget
      ensures 0 <= PixelIndex(targetW, sx, sy) && PixelIndex(targetW, sx, sy) + 4 <= renderTarget.Length
      ensures renderTarget[..] == Store(old(renderTarget[..]), PixelIndex(targetW, sx, sy), c)
    {
      var index := 4 * (sx + sy * targetW);
      PixelIndexInBounds(targetW, targetH, sx, sy);
      WritePixelBytes(renderTarget, index, c);
    }

    /** rasterize_point. */
    method RasterizePoint(x: real, y: real, c: Color)
      requires Valid()
      modifies renderTarget
      ensures renderTarget[..] == PointEffect(Cfg(), old(renderTarget[..]), x, y, c)
    {
      var sx := Floor(x);
      var sy := Floor(y);
      if sx < 0 || sx >= targetW {
        return;
      }
      if sy < 0 || sy >= targetH {
        return;
      }
      FillPixel(sx, sy, c);
    }

    /** Two rasterize_point calls in a row. */
    method PlotTwo(p: Plot, q: Plot)
      requires Valid()
      modifies renderTarget
      ensures renderTarget[..] == PlotAll(Cfg(), old(renderTarget[..]), [p, q])
    {
      ghost var t := renderTarget[..];
      RasterizePoint(p.x, p.y, p.c);
      RasterizePoint(q.x, q.y, q.c);
      PlotAllTwo(Cfg(), t, p, q);
    }

    /** One step of raster_line: the pixel at intery, weighted by rfpart,
        and the one after it, weighted by fpart. */
    method PlotStepPair(ghost s: Segment, ghost k: nat, ghost t0: seq<byte>, coords: bool, x: real, intery: real, c: Color)
      requires Valid() && coords == s.coords && x == s.x0 + k as real && intery == Intery(s, k)
      requires |t0| == renderTarget.Length && renderTarget[..] == PlotAll(Cfg(), t0, LinePlots(bright, s, c, k))
      modifies renderTarget
      ensures renderTarget[..] == PlotAll(Cfg(), t0, LinePlots(bright, s, c, k + 1))
    {
      ghost var t := renderTarget[..];
      var p, q;
      if coords {
        p, q := Plot(x, intery, bright(c, Rfpart(intery))), Plot(x, intery + 1.0, bright(c, Fpart(intery)));
      } else {
        p, q := Plot(intery, x, bright(c, Rfpart(intery))), Plot(intery + 1.0, x, bright(c, Fpart(intery)));
      }
      assert [p, q] == StepPlots(bright, s, c, k);
      PlotTwo(p, q);
      PlotAllAppend(Cfg(), t0, LinePlots(bright, s, c, k), StepPlots(bright, s, c, k));
    }

    /** raster_line: one step per unit of x from x0 to x1, plotting the
        pixel at intery and the one after it. */
    method RasterLine(x0: real, y0: real, x1: real, y1: real, coords: bool, c: Color)
      requires Valid()
      modifies renderTarget
      ensures var s := Segment(x0, y0, x1, y1, coords);
        renderTarget[..] == PlotAll(Cfg(), old(renderTarget[..]), LinePlots(bright, s, c, Steps(s)))
    {
      ghost var s := Segment(x0, y0, x1, y1, coords);
      ghost var t0 := renderTarget[..];
      ghost var cfg := Cfg();
      var dy := y1 - y0;
      var dx := x1 - x0;
      var gradient := if dx == 0.0 then 0.0 else dy / dx;
      assert gradient == Gradient(s);
      var intery := y0;
      var x := x0;
      ghost var k: nat := 0;
      while x <= x1
        invariant x == x0 + k as real && intery == Intery(s, k)
        invariant k <= Steps(s)
        invariant renderTarget[..] == PlotAll(cfg, t0, LinePlots(bright, s, c, k))
        decreases Steps(s) - k
      {
        StepsSpec(s, k);
        PlotStepPair(s, k, t0, coords, x, intery, c);
        InteryStep(s, k);
        intery := intery + gradient;
        x := x + 1.0;
        k := k + 1;
      }
      if x0 <= x1 {
        StepsSpec(s, k);
      }
      assert k == Steps(s);
    }

    /** rasterize_line: reduce to the first octant with arithmetic swaps,
        then run raster_line. */
    method RasterizeLine(x0: real, y0: real, x1: real, y1: real, c: Color)
      requires Valid()
      modifies renderTarget
      ensures renderTarget[..] == LineEffect(Cfg(), old(renderTarget[..]), x0, y0, x1, y1, c)
    {
      var a0, b0, a1, b1 := x0, y0, x1, y1;
      var slopeX := true;
      var steep := Abs(b1 - b0) > Abs(a1 - a0);
      if steep {
        a0 := a0 + b0;
        b0 := a0 - b0;
        a0 := a0 - b0;
        a1 := a1 + b1;
        b1 := a1 - b1;
        a1 := a1 - b1;
        slopeX := false;
      }
      if a0 > a1 {
        a0 := a0 + a1;
        a1 := a0 - a1;
        a0 := a0 - a1;
        b0 := b0 + b1;
        b1 := b0 - b1;
        b0 := b0 - b1;
      }
      assert Segment(a0, b0, a1, b1, slopeX) == Normalise(x0, y0, x1, y1);
      RasterLine(a0, b0, a1, b1, slopeX, c);
    }

    /** The innermost loop of rasterize_triangle: samples (ix, 0) ..
        (ix, rate - 1) of pixel (x, y), each filled when either winding of
        the triangle covers its centre. */
    method FillSampleColumn(t: Triangle, x: int, y: int, ix: int, size: real, center: real, c: Color)
      requires sampleW == targetW * sampleRate && TriangleSafe(Cfg(), |sampleBuffer|, t)
      requires XMin(t) <= x <= XMax(t) && YMin(t) <= y <= YMax(t) && 0 <= ix < sampleRate
      requires size == SampleSize(sampleRate) && center == size / 2.0
      modifies this`sampleBuffer
      ensures sampleBuffer == FillAll(Cfg(), old(sampleBuffer), c, HitsIy(Cfg(), t, x, y, ix, sampleRate))
    {
      ghost var b0 := sampleBuffer;
      for iy := 0 to sampleRate
        invariant |sampleBuffer| == |b0|
        invariant sampleBuffer == FillAll(Cfg(), b0, c, HitsIy(Cfg(), t, x, y, ix, iy))
      {
        FillIfCovered(t, x, y, ix, iy, size, center, c, b0);
      }
    }

    /** One pass of the iy loop: sample (ix, iy) is filled when either
        winding of the triangle covers its centre. */
    method FillIfCovered(t: Triangle, x: int, y: int, ix: int, iy: int, size: real, center: real, c: Color,
                         ghost b0: seq<byte>)
      requires sampleW == targetW * sampleRate && TriangleSafe(Cfg(), |b0|, t)
      requires XMin(t) <= x <= XMax(t) && YMin(t) <= y <= YMax(t) && 0 <= ix < sampleRate && 0 <= iy < sampleRate
      requires size == SampleSize(sampleRate) && center == size / 2.0
      requires sampleBuffer == FillAll(Cfg(), b0, c, HitsIy(Cfg(), t, x, y, ix, iy))
      modifies this`sampleBuffer
      ensures sampleBuffer == FillAll(Cfg(), b0, c, HitsIy(Cfg(), t, x, y, ix, iy + 1))
    {
      ghost var cfg := Cfg();
      ghost var before := sampleBuffer;
      var sx := x as real + center + ix as real * size;
      var sy := y as real + center + iy as real * size;
      ghost var s := Sample(x, y, ix, iy);
      assert Vec2(sx, sy) == SamplePoint(sampleRate, s);
      if inside(t.v0, t.v1, t.v2, Vec2(sx, sy)) || inside(t.v0, t.v2, t.v1, Vec2(sx, sy)) {
        assert Hit(cfg, t, s);
        FillSample(x, y, ix, iy, c);
      }
      SampleStep(cfg, b0, c, t, s, before, sampleBuffer);
    }

    /** The ix loop: every sample column of pixel (x, y). */
    method FillPixelSamples(t: Triangle, x: int, y: int, size: real, center: real, c: Color)
      requires sampleW == targetW * sampleRate && TriangleSafe(Cfg(), |sampleBuffer|, t)
      requires XMin(t) <= x <= XMax(t) && YMin(t) <= y <= YMax(t)
      requires size == SampleSize(sampleRate) && center == size / 2.0
      modifies this`sampleBuffer
      ensures sampleBuffer == FillAll(Cfg(), old(sampleBuffer), c, HitsIx(Cfg(), t, x, y, sampleRate))
    {
      ghost var b0 := sampleBuffer;
      ghost var cfg := Cfg();
      for ix := 0 to sampleRate
        invariant |sampleBuffer| == |b0|
        invariant sampleBuffer == FillAll(cfg, b0, c, HitsIx(cfg, t, x, y, ix))
      {
        ghost var before := sampleBuffer;
        FillSampleColumn(t, x, y, ix, size, center, c);
        PixelStep(cfg, b0, c, t, x, y, ix, before, sampleBuffer);
      }
    }

    /** The y loop: pixels (x, ymin) .. (x, ymax) of the bounding box. */
    method FillTriangleColumn(t: Triangle, x: int, size: real, center: real, c: Color)
      requires sampleW == targetW * sampleRate && TriangleSafe(Cfg(), |sampleBuffer|, t)
      requires XMin(t) <= x <= XMax(t)
      requires size == SampleSize(sampleRate) && center == size / 2.0
      modifies this`sampleBuffer
      ensures sampleBuffer == FillAll(Cfg(), old(sampleBuffer), c, HitsCol(Cfg(), t, x, YMin(t), YMax(t) + 1))
    {
      ghost var b0 := sampleBuffer;
      ghost var cfg := Cfg();
      var height := Ceil(Max3(t.v0.y, t.v1.y, t.v2.y));
      var y := Floor(Min3(t.v0.y, t.v1.y, t.v2.y));
      while y <= height
        invariant YMin(t) <= y <= YMax(t) + 1
        invariant |sampleBuffer| == |b0|
        invariant sampleBuffer == FillAll(cfg, b0, c, HitsCol(cfg, t, x, YMin(t), y))
        decreases height - y
      {
        ghost var before := sampleBuffer;
        FillPixelSamples(t, x, y, size, center, c);
        ColumnStep(cfg, b0, c, t, x, y, before, sampleBuffer);
        y := y + 1;
      }
    }

    /** rasterize_triangle: walk the bounding box column by column and fill
        every covered sample; the result is the triangle's effect on the
        sample buffer. */
    method RasterizeTriangle(x0: real, y0: real, x1: real, y1: real, x2: real, y2: real, c: Color)
      requires Valid() && TriangleSafe(Cfg(), |sampleBuffer|, Triangle(Vec2(x0, y0), Vec2(x1, y1), Vec2(x2, y2)))
      modifies this`sampleBuffer
      ensures sampleBuffer == TriangleEffect(Cfg(), old(sampleBuffer), c, Triangle(Vec2(x0, y0), Vec2(x1, y1), Vec2(x2, y2)))
    {
      var t := Triangle(Vec2(x0, y0), Vec2(x1, y1), Vec2(x2, y2));
      ghost var b0 := sampleBuffer;
      var width := Ceil(Max3(x0, x1, x2));
      var xmin := Floor(Min3(x0, x1, x2));
      var x := xmin;
      var size := if sampleRate == 0 then 0.0 else 1.0 / sampleRate as real;
      var center := size / 2.0;
      ghost var cfg := Cfg();
      while x <= width
        invariant XMin(t) <= x <= XMax(t) + 1
        invariant |sampleBuffer| == |b0|
        invariant sampleBuffer == FillAll(cfg, b0, c, HitsBox(cfg, t, XMin(t), x))
        decreases width - x
      {
        ghost var before := sampleBuffer;
        FillTriangleColumn(t, x, size, center, c);
        BoxStep(cfg, b0, c, t, x, before, sampleBuffer);
        x := x + 1;
      }
      assert x == XMax(t) + 1;
    }

    /** The iy loop of resolve: fold the samples (ix, 0) .. (ix, rate - 1)
        of pixel (x, y) into the running value. */
    method DownsampleColumn(x: int, y: int, ix: int, fill: bool, r: nat, g: nat, b: nat, a: nat)
        returns (fill': bool, r': nat, g': nat, b': nat, a': nat)
      requires Valid() && 0 <= x < targetW && 0 <= y < targetH && 0 <= ix < sampleRate
      ensures AccOf(fill', r', g', b', a')
           == AccIy(sampleBuffer, BlockBase(sampleRate, sampleW, x, y), sampleRate, ix, sampleRate, AccOf(fill, r, g, b, a))
    {
      var realIndex := 4 * (y * sampleRate * sampleW + x * sampleRate * sampleRate);
      ghost var base := BlockBase(sampleRate, sampleW, x, y);
      assert realIndex == base;
      fill', r', g', b', a' := fill, r, g, b, a;
      for iy := 0 to sampleRate
        invariant AccOf(fill', r', g', b', a')
               == AccIy(sampleBuffer, base, sampleRate, ix, iy, AccOf(fill, r, g, b, a))
      {
        var i := CellIndex(x, y, ix, iy, realIndex);
        fill', r', g', b', a' := FoldSample(i, fill', r', g', b', a');
      }
    }

    /** resolve's `real_index + sindex` for sample (ix, iy) of pixel (x, y):
        the sample's first byte, inside the sample buffer. */
    method CellIndex(x: int, y: int, ix: int, iy: int, realIndex: int) returns (i: int)
      requires Valid() && 0 <= x < targetW && 0 <= y < targetH && 0 <= ix < sampleRate && 0 <= iy < sampleRate
      requires realIndex == BlockBase(sampleRate, sampleW, x, y)
      ensures i == BlockBase(sampleRate, sampleW, x, y) + CellOffset(sampleRate, ix, iy)
      ensures 0 <= i && i + 4 <= |sampleBuffer|
    {
      var sindex := 4 * (ix + iy * sampleRate);
      SampleIndexInBounds(targetW, targetH, sampleRate, x, y, ix, iy);
      i := realIndex + sindex;
      assert i == SampleIndex(sampleRate, sampleW, x, y, ix, iy);
    }

    /** The body of resolve's iy loop at byte i of the sample buffer: the
        first sample read is taken as it is, later ones are RMS-blended on
        r, g, b and averaged on a. */
    method FoldSample(i: int, fill: bool, r: nat, g: nat, b: nat, a: nat)
        returns (fill': bool, r': nat, g': nat, b': nat, a': nat)
      requires 0 <= i && i + 4 <= |sampleBuffer|
      ensures fill'
      ensures AccOf(fill', r', g', b', a') == Step(AccOf(fill, r, g, b, a), Cell(sampleBuffer, i))
    {
      fill' := true;
      if !fill {
        r' := sampleBuffer[i] as nat;
        g' := sampleBuffer[i + 1] as nat;
        b' := sampleBuffer[i + 2] as nat;
        a' := sampleBuffer[i + 3] as nat;
      } else {
        r' := Rms(sampleBuffer[i] as nat, r);
        g' := Rms(sampleBuffer[i + 1] as nat, g);
        b' := Rms(sampleBuffer[i + 2] as nat, b);
        a' := Mean(sampleBuffer[i + 3] as nat, a);
      }
    }

    /** The ix loop of resolve: the downsampled value of pixel (x, y). With
        no sample read (`fill` still false) the four values are 0. */
    method DownsamplePixel(x: int, y: int) returns (fill: bool, r: nat, g: nat, b: nat, a: nat)
      requires Valid() && 0 <= x < targetW && 0 <= y < targetH
      ensures AccOf(fill, r, g, b, a) == Downsample(sampleBuffer, BlockBase(sampleRate, sampleW, x, y), sampleRate)
      ensures !fill ==> r == 0 && g == 0 && b == 0 && a == 0
    {
      fill, r, g, b, a := false, 0, 0, 0, 0;
      for ix := 0 to sampleRate
        invariant AccOf(fill, r, g, b, a) == AccIx(sampleBuffer, BlockBase(sampleRate, sampleW, x, y), sampleRate, ix)
        invariant !fill ==> r == 0 && g == 0 && b == 0 && a == 0
      {
        fill, r, g, b, a := DownsampleColumn(x, y, ix, fill, r, g, b, a);
      }
    }

    /** One pixel of resolve: downsample its block and write it back. */
    method ResolvePixel(x: int, y: int)
      requires Valid() && 0 <= x < targetW && 0 <= y < targetH
      modifies renderTarget
      ensures 0 <= PixelIndex(targetW, x, y) && PixelIndex(targetW, x, y) + 4 <= renderTarget.Length
      ensures renderTarget[..] == StorePixel(old(renderTarget[..]), PixelIndex(targetW, x, y),
                                             ResolvedPixel(targetW, sampleRate, old(renderTarget[..]), sampleBuffer, x, y))
    {
      PixelIndexInBounds(targetW, targetH, x, y);
      var index := 4 * (x + y * targetW);
      var fill, r, g, b, a := DownsamplePixel(x, y);
      ghost var t := renderTarget[..];
      ghost var d := Rgba(r, g, b, a);
      assert ResolvedPixel(targetW, sampleRate, t, sampleBuffer, x, y) == Composite(Cell(t, index), d);
      if renderTarget[index] == 255 || renderTarget[index + 1] == 255 || renderTarget[index + 2] == 255 {
        WritePixel(index, Rgba(r, g, b, a));
      } else if r != 255 || g != 255 || b != 255 {
        WritePixel(index, Rgba(Rms(renderTarget[index] as nat, r), Rms(renderTarget[index + 1] as nat, g),
                               Rms(renderTarget[index + 2] as nat, b), Rms(renderTarget[index + 3] as nat, a)));
      } else {
        StoreUnchanged(t, index);
      }
    }

    /** The four stores of resolve's write-back at byte offset i, each
        channel wrapped to a byte. */
    method WritePixel(i: int, p: Rgba)
      requires 0 <= i && i + 4 <= renderTarget.Length
      modifies renderTarget
      ensures renderTarget[..] == StorePixel(old(renderTarget[..]), i, p)
    {
      renderTarget[i] := Wrap(p.r);
      renderTarget[i + 1] := Wrap(p.g);
      renderTarget[i + 2] := Wrap(p.b);
      renderTarget[i + 3] := Wrap(p.a);
    }

    /** The y loop of resolve: column x, pixel by pixel. */
    method ResolveColumn(x: int, ghost t0: seq<byte>, ghost goal: seq<byte>)
      requires Valid() && 0 <= x < targetW && |t0| == renderTarget.Length
      requires GoalHolds(targetW, targetH, sampleRate, t0, sampleBuffer, goal)
      requires forall i :: 0 <= i < |t0| ==> renderTarget[i] == if Resolved(targetW, x, 0, i) then goal[i] else t0[i]
      modifies renderTarget
      ensures forall i :: 0 <= i < |t0| ==> renderTarget[i] == if Resolved(targetW, x + 1, 0, i) then goal[i] else t0[i]
    {
      for y := 0 to targetH
        invariant forall i :: 0 <= i < |t0| ==> renderTarget[i] == if Resolved(targetW, x, y, i) then goal[i] else t0[i]
      {
        GoalAt(targetW, targetH, sampleRate, t0, sampleBuffer, goal, x, y);
        ghost var cur := renderTarget[..];
        ghost var px := ResolvedPixel(targetW, sampleRate, t0, sampleBuffer, x, y);
        ResolveStep(targetW, targetH, t0, goal, cur, x, y, px);
        ResolvePixel(x, y);
        assert ResolvedPixel(targetW, sampleRate, cur, sampleBuffer, x, y) == px;
      }
      forall i | 0 <= i < |t0|
        ensures Resolved(targetW, x, targetH, i) == Resolved(targetW, x + 1, 0, i)
      {
        ColumnDone(targetW, targetH, x, i);
      }
    }

    /** resolve: every pixel, column by column, gets its resolved value;
        the target ends up as the resolved target of its old contents. */
    method Resolve()
      requires Valid()
      modifies renderTarget
      ensures renderTarget[..] == ResolveTarget(targetW, sampleRate, old(renderTarget[..]), sampleBuffer)
    {
      ghost var t0 := renderTarget[..];
      ghost var goal := ResolvedGoal(targetW, targetH, sampleRate, t0, sampleBuffer);
      for x := 0 to targetW
        invariant forall i :: 0 <= i < |t0| ==> renderTarget[i] == if Resolved(targetW, x, 0, i) then goal[i] else t0[i]
      {
        ResolveColumn(x, t0, goal);
      }
      forall i | 0 <= i < |t0|
        ensures renderTarget[i] == goal[i]
      {
        AllResolved(targetW, targetH, i);
      }
      GoalUnique(targetW, targetH, sampleRate, t0, sampleBuffer, goal);
    }

    /** draw_point: the position, transformed, in the fill colour. */
    method DrawPoint(e: Element)
      requires Valid() && e.PointElement?
      modifies renderTarget
      ensures Bufs() == RunCmds(Cfg(), old(Bufs()), [PointCmd(Apply(transformation, e.position), e.style.fillColor)])
    {
      ghost var b0 := Bufs();
      var p := Apply(transformation, e.position);
      RasterizePoint(p.x, p.y, e.style.fillColor);
      RunCmdsSnoc(Cfg(), b0, [], PointCmd(p, e.style.fillColor));
    }

    /** draw_line: the segment, transformed, in the stroke colour. */
    method DrawLine(e: Element)
      requires Valid() && e.LineElement?
      modifies renderTarget
      ensures Bufs() == RunCmds(Cfg(), old(Bufs()),
                                [LineCmd(Apply(transformation, e.fromPoint), Apply(transformation, e.toPoint), e.style.strokeColor)])
    {
      ghost var b0 := Bufs();
      var p0 := Apply(transformation, e.fromPoint);
      var p1 := Apply(transformation, e.toPoint);
      RasterizeLine(p0.x, p0.y, p1.x, p1.y, e.style.strokeColor);
      RunCmdsSnoc(Cfg(), b0, [], LineCmd(p0, p1, e.style.strokeColor));
    }

    /** draw_polyline: segments i -> i + 1 for i < n - 1, unless the stroke
        is clear. */
    method DrawPolyline(e: Element)
      requires Valid() && e.PolylineElement?
      modifies renderTarget
      ensures Bufs() == RunCmds(Cfg(), old(Bufs()), PolylineCmds(transformation, e.points, e.style))
    {
      ghost var b0 := Bufs();
      PolylineRun(transformation, e.points, e.style);
      var c := e.style.strokeColor;
      if c.a != 0.0 {
        var n := |e.points|;
        DrawEdges(e.points, c, if n > 0 then n - 1 else 0);
      } else {
        assert RunCmds(Cfg(), b0, []) == b0;
      }
    }

    /** Segment i of an outline: point i to point i + 1, wrapping at the end. */
    method DrawEdge(pts: seq<Vec2>, c: Color, i: nat)
      requires Valid() && i < |pts|
      modifies renderTarget
      ensures Bufs() == RunCmd(Cfg(), old(Bufs()),
                               LineCmd(Apply(transformation, pts[i % |pts|]), Apply(transformation, pts[(i + 1) % |pts|]), c))
    {
      var n := |pts|;
      var p0 := Apply(transformation, pts[(i + 0) % n]);
      var p1 := Apply(transformation, pts[(i + 1) % n]);
      RasterizeLine(p0.x, p0.y, p1.x, p1.y, c);
    }

    /** The edge loop of draw_polyline (k = n - 1) and of draw_polygon's
        outline (k = n). */
    method DrawEdges(pts: seq<Vec2>, c: Color, k: nat)
      requires Valid() && k <= |pts|
      modifies renderTarget
      ensures Bufs() == RunCmds(Cfg(), old(Bufs()), EdgeRun(transformation, pts, c, k))
    {
      ghost var b0 := Bufs();
      for i := 0 to k
        invariant Bufs() == RunCmds(Cfg(), b0, EdgeRun(transformation, pts, c, i))
      {
        ghost var before := Bufs();
        DrawEdge(pts, c, i);
        EdgeStep(Cfg(), b0, transformation, pts, c, i, before, Bufs());
      }
    }

    /** One pass of draw_polygon's triangle loop: triangle j, at corners
        i = 3j, i + 1, i + 2, after the first j triangles. */
    method DrawTriangleAt(corners: seq<Vec2>, c: Color, i: nat, ghost b0: Buffers, ghost k: nat, ghost j: nat)
      requires Valid() && 3 * k == |corners| && i == 3 * j && j < k
      requires |b0.target| == 4 * targetW * targetH && |sampleBuffer| == |b0.samples|
      requires AllSafe(Cfg(), |b0.samples|, TriangleRun(transformation, corners, c, k))
      requires Bufs() == RunCmds(Cfg(), b0, TriangleRun(transformation, corners, c, j))
      modifies this`sampleBuffer
      ensures Valid() && |sampleBuffer| == |b0.samples|
      ensures Bufs() == RunCmds(Cfg(), b0, TriangleRun(transformation, corners, c, j + 1))
    {
      TriangleRunSafe(Cfg(), |sampleBuffer|, transformation, corners, c, k, j);
      ghost var before := Bufs();
      var p0 := Apply(transformation, corners[i + 0]);
      var p1 := Apply(transformation, corners[i + 1]);
      var p2 := Apply(transformation, corners[i + 2]);
      RasterizeTriangle(p0.x, p0.y, p1.x, p1.y, p2.x, p2.y, c);
      TriangleStep(Cfg(), b0, transformation, corners, c, j, before, Bufs());
    }

    /** The triangle loop of draw_polygon, three corners at a time; there
        are k triangles. */
    method DrawTriangles(corners: seq<Vec2>, c: Color, ghost k: nat)
      requires Valid() && |corners| == 3 * k
      requires AllSafe(Cfg(), |sampleBuffer|, TriangleRun(transformation, corners, c, k))
      modifies this`sampleBuffer
      ensures Valid()
      ensures Bufs() == RunCmds(Cfg(), old(Bufs()), TriangleRun(transformation, corners, c, k))
    {
      ghost var b0 := Bufs();
      ghost var cfg := Cfg();
      var i := 0;
      ghost var j := 0;
      while i < |corners|
        invariant i == 3 * j && j <= k
        invariant |sampleBuffer| == |b0.samples| && Valid()
        invariant renderTarget[..] == b0.target
        invariant Bufs() == RunCmds(cfg, b0, TriangleRun(transformation, corners, c, j))
      {
        DrawTriangleAt(corners, c, i, b0, k, j);
        i, j := i + 3, j + 1;
      }
      assert j == k;
    }

    /** draw_polygon: the triangulated fill unless clear, then the closed
        outline unless clear. */
    method DrawPolygon(e: Element)
      requires Valid() && e.PolygonElement?
      requires AllSafe(Cfg(), |sampleBuffer|, PolygonCmds(triangulate, transformation, e.points, e.style))
      modifies this`sampleBuffer, renderTarget
      ensures Valid()
      ensures Bufs() == RunCmds(Cfg(), old(Bufs()), PolygonCmds(triangulate, transformation, e.points, e.style))
    {
      ghost var b0 := Bufs();
      var c := e.style.fillColor;
      ghost var corners := triangulate(e.points);
      ghost var fill: seq<Cmd> := if c.a != 0.0 then TriangleRun(transformation, corners, c, |corners| / 3) else [];
      ghost var outline := PolygonOutline(transformation, e.points, e.style.strokeColor);
      AllSafeAppend(Cfg(), |sampleBuffer|, fill, outline);
      if c.a != 0.0 {
        var triangles := triangulate(e.points);
        DrawTriangles(triangles, c, |triangles| / 3);
      }
      c := e.style.strokeColor;
      if c.a != 0.0 {
        DrawEdges(e.points, c, |e.points|);
      }
      RunCmdsAppend(Cfg(), b0, fill, outline);
    }

    /** The fill of draw_rect: (p0, p1, p2), then (p2, p1, p3). */
    method DrawRectFill(p: seq<Vec2>, c: Color)
      requires Valid() && |p| == 4
      requires TriangleSafe(Cfg(), |sampleBuffer|, Triangle(p[0], p[1], p[2]))
      requires TriangleSafe(Cfg(), |sampleBuffer|, Triangle(p[2], p[1], p[3]))
      modifies this`sampleBuffer
      ensures Valid()
      ensures Bufs() == RunCmds(Cfg(), old(Bufs()), [TriangleCmd(Triangle(p[0], p[1], p[2]), c),
                                                     TriangleCmd(Triangle(p[2], p[1], p[3]), c)])
    {
      ghost var b0 := Bufs();
      RasterizeTriangle(p[0].x, p[0].y, p[1].x, p[1].y, p[2].x, p[2].y, c);
      RunCmdsStep(Cfg(), b0, [], TriangleCmd(Triangle(p[0], p[1], p[2]), c), b0, Bufs());
      ghost var b1 := Bufs();
      RasterizeTriangle(p[2].x, p[2].y, p[1].x, p[1].y, p[3].x, p[3].y, c);
      RunCmdsStep(Cfg(), b0, [TriangleCmd(Triangle(p[0], p[1], p[2]), c)],
                  TriangleCmd(Triangle(p[2], p[1], p[3]), c), b1, Bufs());
    }

    /** The outline of draw_rect: p0 -> p1 -> p3 -> p2 -> p0. */
    method DrawRectStroke(p: seq<Vec2>, c: Color)
      requires Valid() && |p| == 4
      modifies renderTarget
      ensures Bufs() == RunCmds(Cfg(), old(Bufs()), [LineCmd(p[0], p[1], c), LineCmd(p[1], p[3], c),
                                                     LineCmd(p[3], p[2], c), LineCmd(p[2], p[0], c)])
    {
      ghost var b0 := Bufs();
      RasterizeLine(p[0].x, p[0].y, p[1].x, p[1].y, c);
      ghost var b1 := Bufs();
      RasterizeLine(p[1].x, p[1].y, p[3].x, p[3].y, c);
      ghost var b2 := Bufs();
      RasterizeLine(p[3].x, p[3].y, p[2].x, p[2].y, c);
      ghost var b3 := Bufs();
      RasterizeLine(p[2].x, p[2].y, p[0].x, p[0].y, c);
      RunFour(Cfg(), b0, [LineCmd(p[0], p[1], c), LineCmd(p[1], p[3], c), LineCmd(p[3], p[2], c), LineCmd(p[2], p[0], c)],
              b1, b2, b3, Bufs());
    }

    /** draw_rect: two triangles for the fill, then four edges, each part
        skipped when its colour is clear. */
    method DrawRect(e: Element)
      requires Valid() && e.RectElement?
      requires AllSafe(Cfg(), |sampleBuffer|, RectCmds(transformation, e.position, e.dimension, e.style))
      modifies this`sampleBuffer, renderTarget
      ensures Valid()
      ensures Bufs() == RunCmds(Cfg(), old(Bufs()), RectCmds(transformation, e.position, e.dimension, e.style))
    {
      ghost var b0 := Bufs();
      ghost var fill := RectFill(transformation, e.position, e.dimension, e.style.fillColor);
      ghost var stroke := RectStroke(transformation, e.position, e.dimension, e.style.strokeColor);
      AllSafeAppend(Cfg(), |sampleBuffer|, fill, stroke);
      var x, y, w, h := e.position.x, e.position.y, e.dimension.x, e.dimension.y;
      var p := [Apply(transformation, Vec2(x, y)), Apply(transformation, Vec2(x + w, y)),
                Apply(transformation, Vec2(x, y + h)), Apply(transformation, Vec2(x + w, y + h))];
      assert p == RectCorners(transformation, e.position, e.dimension);
      var c := e.style.fillColor;
      if c.a != 0.0 {
        assert CmdSafe(Cfg(), |sampleBuffer|, fill[0]) && CmdSafe(Cfg(), |sampleBuffer|, fill[1]);
        DrawRectFill(p, c);
      }
      c := e.style.strokeColor;
      if c.a != 0.0 {
        DrawRectStroke(p, c);
      }
      RunCmdsAppend(Cfg(), b0, fill, stroke);
    }

    /** draw_group: the children in order, each under the matrix on top of
        the stack. */
    method DrawGroup(e: Element)
      requires Valid() && e.GroupElement? && |tmatrix| > 0
      requires AllSafe(Cfg(), |sampleBuffer|, EmitAll(triangulate, tmatrix[|tmatrix| - 1], e.elements))
      modifies this`tmatrix, this`transformation, this`sampleBuffer, renderTarget
      decreases e, 0
      ensures Valid() && tmatrix == old(tmatrix)
      ensures transformation == if |e.elements| > 0 then LastMatrix(tmatrix[|tmatrix| - 1], e.elements[|e.elements| - 1])
                                else old(transformation)
      ensures Bufs() == RunCmds(Cfg(), old(Bufs()), EmitAll(triangulate, tmatrix[|tmatrix| - 1], e.elements))
    {
      ghost var b0 := Bufs();
      ghost var top := tmatrix[|tmatrix| - 1];
      var es := e.elements;
      for i := 0 to |es|
        invariant Valid() && tmatrix == old(tmatrix) && |sampleBuffer| == |b0.samples|
        invariant transformation == if i > 0 then LastMatrix(top, es[i - 1]) else old(transformation)
        invariant Bufs() == RunCmds(Cfg(), b0, EmitAll(triangulate, top, es[..i]))
      {
        DrawChild(es, i, top, b0);
      }
      assert es[..|es|] == es;
    }

    /** One pass of an element loop (draw_group's, or draw_svg's): child i
        drawn after the first i, under the matrix on top of the stack. */
    method DrawChild(es: seq<Element>, i: nat, ghost top: Matrix, ghost b0: Buffers)
      requires Valid() && |tmatrix| > 0 && top == tmatrix[|tmatrix| - 1] && i < |es|
      requires |b0.target| == 4 * targetW * targetH && |sampleBuffer| == |b0.samples|
      requires AllSafe(Cfg(), |b0.samples|, EmitAll(triangulate, top, es))
      requires Bufs() == RunCmds(Cfg(), b0, EmitAll(triangulate, top, es[..i]))
      modifies this`tmatrix, this`transformation, this`sampleBuffer, renderTarget
      decreases es[i], 3
      ensures Valid() && tmatrix == old(tmatrix) && |sampleBuffer| == |b0.samples|
      ensures transformation == LastMatrix(top, es[i])
      ensures Bufs() == RunCmds(Cfg(), b0, EmitAll(triangulate, top, es[..i + 1]))
    {
      EmitAllSafeAt(Cfg(), |sampleBuffer|, triangulate, top, es, i);
      ghost var before := Bufs();
      DrawElement(es[i]);
      EmitStep(Cfg(), b0, triangulate, top, es, i, before, Bufs());
    }

    /** draw_element: push the top of the stack times the element's own
        transform, draw the element under it, pop. */
    method DrawElement(e: Element)
      requires Valid() && |tmatrix| > 0
      requires AllSafe(Cfg(), |sampleBuffer|, Emit(triangulate, tmatrix[|tmatrix| - 1], e))
      modifies this`tmatrix, this`transformation, this`sampleBuffer, renderTarget
      decreases e, 2
      ensures Valid() && tmatrix == old(tmatrix)
      ensures transformation == LastMatrix(tmatrix[|tmatrix| - 1], e)
      ensures Bufs() == RunCmds(Cfg(), old(Bufs()), Emit(triangulate, tmatrix[|tmatrix| - 1], e))
    {
      var top := tmatrix[|tmatrix| - 1];
      PushMatrix(Mul(top, e.transform));
      DrawElementSwitch(e, top);
      PopMatrix();
    }

    /** `tmatrix.push(m); transformation = tmatrix.top();` */
    method PushMatrix(m: Matrix)
      modifies this`tmatrix, this`transformation
      ensures tmatrix == old(tmatrix) + [m] && transformation == m
    {
      tmatrix := tmatrix + [m];
      transformation := tmatrix[|tmatrix| - 1];
    }

    /** `tmatrix.pop()`: the top goes, `transformation` stays. */
    method PopMatrix()
      requires |tmatrix| > 0
      modifies this`tmatrix
      ensures tmatrix == old(tmatrix)[..|old(tmatrix)| - 1]
    {
      tmatrix := tmatrix[..|tmatrix| - 1];
    }

    /** The switch of draw_element, on the element's type, with its matrix
        already pushed. Ellipses and images draw nothing: draw_ellipse is
        empty and rasterize_image does nothing. */
    method DrawElementSwitch(e: Element, ghost top: Matrix)
      requires Valid() && |tmatrix| > 0
      requires transformation == tmatrix[|tmatrix| - 1] == Mul(top, e.transform)
      requires AllSafe(Cfg(), |sampleBuffer|, Emit(triangulate, top, e))
      modifies this`tmatrix, this`transformation, this`sampleBuffer, renderTarget
      decreases e, 1
      ensures Valid() && tmatrix == old(tmatrix)
      ensures transformation == LastMatrix(top, e)
      ensures Bufs() == RunCmds(Cfg(), old(Bufs()), Emit(triangulate, top, e))
    {
      match e {
        case PointElement(_, _, _) => DrawPoint(e);
        case LineElement(_, _, _, _) => DrawLine(e);
        case PolylineElement(_, _, _) => DrawPolyline(e);
        case RectElement(_, _, _, _) => DrawRect(e);
        case PolygonElement(_, _, _) => DrawPolygon(e);
        case EllipseElement(_, _, _, _) =>
        case ImageElement(_, _, _, _) =>
        case GroupElement(_, _, _) => DrawGroup(e);
      }
    }

    /** The canvas outline of draw_svg: the corners pushed one unit outwards,
        in black. */
    method DrawCanvasOutline(width: real, height: real)
      requires Valid()
      modifies renderTarget
      ensures Bufs() == RunCmds(Cfg(), old(Bufs()), OutlineCmds(transformation, width, height))
    {
      var a := Apply(transformation, Vec2(0.0, 0.0));
      a := Vec2(a.x - 1.0, a.y - 1.0);
      var b := Apply(transformation, Vec2(width, 0.0));
      b := Vec2(b.x + 1.0, b.y - 1.0);
      var c := Apply(transformation, Vec2(0.0, height));
      c := Vec2(c.x - 1.0, c.y + 1.0);
      var d := Apply(transformation, Vec2(width, height));
      d := Vec2(d.x + 1.0, d.y + 1.0);
      assert a == Nudge(Apply(transformation, Vec2(0.0, 0.0)), -1.0, -1.0);
      assert b == Nudge(Apply(transformation, Vec2(width, 0.0)), 1.0, -1.0);
      assert c == Nudge(Apply(transformation, Vec2(0.0, height)), -1.0, 1.0);
      assert d == Nudge(Apply(transformation, Vec2(width, height)), 1.0, 1.0);
      DrawOutlineLines(a, b, c, d);
    }

    /** The four black lines a-b, a-c, d-b, d-c. */
    method DrawOutlineLines(a: Vec2, b: Vec2, c: Vec2, d: Vec2)
      requires Valid()
      modifies renderTarget
      ensures Bufs() == RunCmds(Cfg(), old(Bufs()), OutlineLines(a, b, c, d))
    {
      ghost var b0 := Bufs();
      RasterizeLine(a.x, a.y, b.x, b.y, Black);
      ghost var b1 := Bufs();
      RasterizeLine(a.x, a.y, c.x, c.y, Black);
      ghost var b2 := Bufs();
      RasterizeLine(d.x, d.y, b.x, b.y, Black);
      ghost var b3 := Bufs();
      RasterizeLine(d.x, d.y, c.x, c.y, Black);
      RunFour(Cfg(), b0, OutlineLines(a, b, c, d), b1, b2, b3, Bufs());
    }

    /** The element loop of draw_svg, with the stack holding only the
        canvas-to-screen matrix. */
    method DrawSvgElements(es: seq<Element>)
      requires Valid() && tmatrix == [canvasToScreen]
      requires AllSafe(Cfg(), |sampleBuffer|, EmitAll(triangulate, canvasToScreen, es))
      modifies this`tmatrix, this`transformation, this`sampleBuffer, renderTarget
      ensures Valid() && tmatrix == [canvasToScreen]
      ensures Bufs() == RunCmds(Cfg(), old(Bufs()), EmitAll(triangulate, canvasToScreen, es))
    {
      ghost var b0 := Bufs();
      for i := 0 to |es|
        invariant Valid() && tmatrix == [canvasToScreen] && |sampleBuffer| == |b0.samples|
        invariant Bufs() == RunCmds(Cfg(), b0, EmitAll(triangulate, canvasToScreen, es[..i]))
      {
        DrawChild(es, i, canvasToScreen, b0);
      }
      assert es[..|es|] == es;
    }

    /** draw_svg: reset the stack to the canvas-to-screen matrix, draw every
        element, draw the canvas outline, resolve. */
    method DrawSvg(doc: Document)
      requires Valid()
      requires AllSafe(Cfg(), |sampleBuffer|, EmitAll(triangulate, canvasToScreen, doc.elements))
      modifies this`tmatrix, this`transformation, this`sampleBuffer, renderTarget
      ensures Valid() && tmatrix == [canvasToScreen] && transformation == canvasToScreen
      ensures var d := RunCmds(Cfg(), old(Bufs()), SvgCmds(triangulate, canvasToScreen, doc));
              sampleBuffer == d.samples && renderTarget[..] == ResolveTarget(targetW, sampleRate, d.target, d.samples)
    {
      ghost var b0 := Bufs();
      tmatrix := [canvasToScreen];
      DrawSvgElements(doc.elements);
      transformation := tmatrix[|tmatrix| - 1];
      DrawCanvasOutline(doc.width, doc.height);
      RunCmdsAppend(Cfg(), b0, EmitAll(triangulate, canvasToScreen, doc.elements),
                    OutlineCmds(canvasToScreen, doc.width, doc.height));
      Resolve();
    }

    /** fill_sample: blend c over sample (ix, iy) of pixel (x, y). */
    method FillSample(x: int, y: int, ix: int, iy: int, c: Color)
      requires sampleW == targetW * sampleRate && CellFits(Cfg(), |sampleBuffer|, Sample(x, y, ix, iy))
      modifies this`sampleBuffer
      ensures sampleBuffer == Coverage.FillSample(Cfg(), old(sampleBuffer), c, Sample(x, y, ix, iy))
    {
      var index := 4 * (y * sampleRate * sampleW + x * sampleRate * sampleRate + (ix + iy * sampleRate));
      assert index == SampleIndex(sampleRate, targetW * sampleRate, x, y, ix, iy);
      var bg := Color(sampleBuffer[index] as real / 255.0, sampleBuffer[index + 1] as real / 255.0,
                      sampleBuffer[index + 2] as real / 255.0, sampleBuffer[index + 3] as real / 255.0);
      assert bg == Unpack(sampleBuffer, index);
      var color := BlendColors(c, bg);
      sampleBuffer := sampleBuffer[index := ToByte(color.r * 255.0)][index + 1 := ToByte(color.g * 255.0)]
                                  [index + 2 := ToByte(color.b * 255.0)][index + 3 := ToByte(color.a * 255.0)];
    }
  }
}
