/** What each element asks the rasterizers to draw. Every drawing routine of
    the renderer is a sequence of rasterization calls; this module lists
    those calls as commands, in the order the routines issue them. */
module Emission {
  import opened Geometry
  import opened Colors
  import opened Svg

  datatype Triangle = Triangle(v0: Vec2, v1: Vec2, v2: Vec2)

  /** One call of rasterize_point, rasterize_line or rasterize_triangle, in
      screen coordinates. */
  datatype Cmd =
    | PointCmd(p: Vec2, color: Color)
    | LineCmd(p0: Vec2, p1: Vec2, color: Color)
    | TriangleCmd(tri: Triangle, color: Color)

  /** The first k segments of the outline loops of draw_polyline and
      draw_polygon: segment i joins points[i % n] and points[(i + 1) % n]. */
  function EdgeRun(m: Matrix, pts: seq<Vec2>, c: Color, k: nat): seq<Cmd>
    requires k <= |pts|
  {
    if k == 0 then []
    else EdgeRun(m, pts, c, k - 1)
         + [LineCmd(Apply(m, pts[(k - 1) % |pts|]), Apply(m, pts[k % |pts|]), c)]
  }

  /** draw_polyline: the open outline, skipped when the stroke is clear. */
  function PolylineCmds(m: Matrix, pts: seq<Vec2>, style: Style): seq<Cmd>
  {
    if style.strokeColor.a != 0.0 && |pts| > 1 then EdgeRun(m, pts, style.strokeColor, |pts| - 1)
    else []
  }

  /** draw_polygon's outline: the closed edge loop, skipped when clear. */
  function PolygonOutline(m: Matrix, pts: seq<Vec2>, c: Color): seq<Cmd>
  {
    if c.a != 0.0 then EdgeRun(m, pts, c, |pts|) else []
  }

  /** The first j triangles of a flat list of corners. */
  function TriangleRun(m: Matrix, corners: seq<Vec2>, c: Color, j: nat): seq<Cmd>
    requires 3 * j <= |corners|
  {
    if j == 0 then []
    else TriangleRun(m, corners, c, j - 1)
         + [TriangleCmd(Triangle(Apply(m, corners[3 * j - 3]), Apply(m, corners[3 * j - 2]),
                                 Apply(m, corners[3 * j - 1])), c)]
  }

  /** draw_polygon: the triangulated fill, then the outline. */
  function PolygonCmds(tri: Triangulator, m: Matrix, pts: seq<Vec2>, style: Style): seq<Cmd>
  {
    var corners := tri(pts);
    (if style.fillColor.a != 0.0 then TriangleRun(m, corners, style.fillColor, |corners| / 3) else [])
    + PolygonOutline(m, pts, style.strokeColor)
  }

  /** The four corners of a rect, transformed: (x, y), (x + w, y), (x, y + h),
      (x + w, y + h). */
  function RectCorners(m: Matrix, pos: Vec2, dim: Vec2): seq<Vec2>
  {
    [Apply(m, pos), Apply(m, Vec2(pos.x + dim.x, pos.y)),
     Apply(m, Vec2(pos.x, pos.y + dim.y)), Apply(m, Vec2(pos.x + dim.x, pos.y + dim.y))]
  }

  /** draw_rect's fill: two triangles (p0, p1, p2) and (p2, p1, p3). */
  function RectFill(m: Matrix, pos: Vec2, dim: Vec2, c: Color): seq<Cmd>
  {
    var p := RectCorners(m, pos, dim);
    if c.a != 0.0 then [TriangleCmd(Triangle(p[0], p[1], p[2]), c), TriangleCmd(Triangle(p[2], p[1], p[3]), c)]
    else []
  }

  /** draw_rect's outline: p0 -> p1 -> p3 -> p2 -> p0. */
  function RectStroke(m: Matrix, pos: Vec2, dim: Vec2, c: Color): seq<Cmd>
  {
    var p := RectCorners(m, pos, dim);
    if c.a != 0.0 then [LineCmd(p[0], p[1], c), LineCmd(p[1], p[3], c), LineCmd(p[3], p[2], c), LineCmd(p[2], p[0], c)]
    else []
  }

  function RectCmds(m: Matrix, pos: Vec2, dim: Vec2, style: Style): seq<Cmd>
  {
    RectFill(m, pos, dim, style.fillColor) + RectStroke(m, pos, dim, style.strokeColor)
  }

  /** draw_element: every element is drawn with the transform on top of the
      stack times its own; a group draws its children with that product on
      top. Ellipses and images draw nothing. */
  function Emit(tri: Triangulator, top: Matrix, e: Element): seq<Cmd>
    decreases e
  {
    var m := Mul(top, e.transform);
    match e
    case PointElement(_, style, position) => [PointCmd(Apply(m, position), style.fillColor)]
    case LineElement(_, style, p0, p1) => [LineCmd(Apply(m, p0), Apply(m, p1), style.strokeColor)]
    case PolylineElement(_, style, pts) => PolylineCmds(m, pts, style)
    case RectElement(_, style, pos, dim) => RectCmds(m, pos, dim, style)
    case PolygonElement(_, style, pts) => PolygonCmds(tri, m, pts, style)
    case EllipseElement(_, _, _, _) => []
    case ImageElement(_, _, _, _) => []
    case GroupElement(_, _, children) => EmitAll(tri, m, children)
  }

  /** The elements of a list drawn one after the other. */
  function EmitAll(tri: Triangulator, top: Matrix, es: seq<Element>): seq<Cmd>
    decreases es
  {
    if es == [] then [] else EmitAll(tri, top, es[..|es| - 1]) + Emit(tri, top, es[|es| - 1])
  }

  /** The commands of f(e) for each e of a list, concatenated. */
  function FlatMap(f: Element -> seq<Cmd>, es: seq<Element>): seq<Cmd>
  {
    if es == [] then [] else FlatMap(f, es[..|es| - 1]) + f(es[|es| - 1])
  }

  lemma {:induction false} FlatMapAppend(f: Element -> seq<Cmd>, xs: seq<Element>, ys: seq<Element>)
    ensures FlatMap(f, xs + ys) == FlatMap(f, xs) + FlatMap(f, ys)
    decreases |ys|
  {
    if ys == [] {
      assert xs + ys == xs;
    } else {
      var zs := ys[..|ys| - 1];
      assert (xs + ys)[..|xs + ys| - 1] == xs + zs;
      assert (xs + ys)[|xs + ys| - 1] == ys[|ys| - 1];
      FlatMapAppend(f, xs, zs);
    }
  }

  /** EmitAll is the flat map of Emit. */
  lemma {:induction false} EmitAllFlat(tri: Triangulator, top: Matrix, es: seq<Element>)
    ensures EmitAll(tri, top, es) == FlatMap(e => Emit(tri, top, e), es)
    decreases |es|
  {
    if es != [] {
      EmitAllFlat(tri, top, es[..|es| - 1]);
    }
  }

  /** Drawing a list is drawing its two parts one after the other. */
  lemma EmitAllAppend(tri: Triangulator, top: Matrix, xs: seq<Element>, ys: seq<Element>)
    ensures EmitAll(tri, top, xs + ys) == EmitAll(tri, top, xs) + EmitAll(tri, top, ys)
  {
    EmitAllFlat(tri, top, xs + ys);
    EmitAllFlat(tri, top, xs);
    EmitAllFlat(tri, top, ys);
    FlatMapAppend(e => Emit(tri, top, e), xs, ys);
  }

  /** The first i + 1 elements of a list: the first i, then element i. */
  lemma EmitAllPrefix(tri: Triangulator, top: Matrix, es: seq<Element>, i: nat)
    requires i < |es|
    ensures EmitAll(tri, top, es[..i + 1]) == EmitAll(tri, top, es[..i]) + Emit(tri, top, es[i])
  {
    assert es[..i + 1][..i] == es[..i];
  }

  /** The matrix left in `transformation` after draw_element returns: the
      one set for the last element drawn, since popping the stack does not
      restore it. */
  function LastMatrix(top: Matrix, e: Element): Matrix
    decreases e
  {
    var m := Mul(top, e.transform);
    if e.GroupElement? && |e.elements| > 0 then LastMatrix(m, e.elements[|e.elements| - 1]) else m
  }

  /** A point moved by (dx, dy). */
  function Nudge(p: Vec2, dx: real, dy: real): Vec2
  {
    Vec2(p.x + dx, p.y + dy)
  }

  /** The four black lines a-b, a-c, d-b, d-c. */
  function OutlineLines(a: Vec2, b: Vec2, c: Vec2, d: Vec2): seq<Cmd>
  {
    [LineCmd(a, b, Black), LineCmd(a, c, Black), LineCmd(d, b, Black), LineCmd(d, c, Black)]
  }

  /** draw_svg's canvas outline: the corners pushed one unit outwards. */
  function OutlineCmds(m: Matrix, width: real, height: real): seq<Cmd>
  {
    OutlineLines(Nudge(Apply(m, Vec2(0.0, 0.0)), -1.0, -1.0), Nudge(Apply(m, Vec2(width, 0.0)), 1.0, -1.0),
                 Nudge(Apply(m, Vec2(0.0, height)), -1.0, 1.0), Nudge(Apply(m, Vec2(width, height)), 1.0, 1.0))
  }

  /** draw_svg: every element under the canvas-to-screen matrix, then the
      canvas outline. */
  function SvgCmds(tri: Triangulator, m: Matrix, doc: Document): seq<Cmd>
  {
    EmitAll(tri, m, doc.elements) + OutlineCmds(m, doc.width, doc.height)
  }

  /** One more segment, from point i to point i + 1 (mod n). */
  lemma EdgeRunStep(m: Matrix, pts: seq<Vec2>, c: Color, i: nat)
    requires i < |pts|
    ensures EdgeRun(m, pts, c, i + 1)
         == EdgeRun(m, pts, c, i) + [LineCmd(Apply(m, pts[i % |pts|]), Apply(m, pts[(i + 1) % |pts|]), c)]
  {
  }

  /** One more triangle, at corners 3j, 3j + 1 and 3j + 2. */
  lemma TriangleRunStep(m: Matrix, corners: seq<Vec2>, c: Color, j: nat)
    requires 3 * j + 3 <= |corners|
    ensures TriangleRun(m, corners, c, j + 1)
         == TriangleRun(m, corners, c, j)
            + [TriangleCmd(Triangle(Apply(m, corners[3 * j]), Apply(m, corners[3 * j + 1]), Apply(m, corners[3 * j + 2])), c)]
  {
    assert 3 * (j + 1) - 3 == 3 * j;
  }

  /** Segment i of an edge run joins points i and i + 1 (modulo n). */
  lemma {:induction false} EdgeRunAt(m: Matrix, pts: seq<Vec2>, c: Color, k: nat, i: nat)
    requires k <= |pts| && i < k
    ensures |EdgeRun(m, pts, c, k)| == k
    ensures EdgeRun(m, pts, c, k)[i] == LineCmd(Apply(m, pts[i % |pts|]), Apply(m, pts[(i + 1) % |pts|]), c)
  {
    if i < k - 1 {
      EdgeRunAt(m, pts, c, k - 1, i);
    } else {
      EdgeRunLength(m, pts, c, k - 1);
    }
  }

  /** Away from the wrap-around, segment i joins points i and i + 1. */
  lemma EdgeRunOpen(m: Matrix, pts: seq<Vec2>, c: Color, k: nat, i: nat)
    requires k <= |pts| && i < k && i + 1 < |pts|
    ensures |EdgeRun(m, pts, c, k)| == k
    ensures EdgeRun(m, pts, c, k)[i] == LineCmd(Apply(m, pts[i]), Apply(m, pts[i + 1]), c)
  {
    EdgeRunAt(m, pts, c, k, i);
    ModSmall(i, |pts|);
    ModSmall(i + 1, |pts|);
  }

  lemma ModSmall(i: nat, n: nat)
    requires i < n
    ensures i % n == i
  {
  }

  lemma {:induction false} EdgeRunLength(m: Matrix, pts: seq<Vec2>, c: Color, k: nat)
    requires k <= |pts|
    ensures |EdgeRun(m, pts, c, k)| == k
  {
    if k > 0 {
      EdgeRunLength(m, pts, c, k - 1);
    }
  }

  /** A polyline of n points gives n - 1 segments (p_i, p_i+1), none when
      n <= 1 or the stroke is clear. */
  lemma PolylineSegments(m: Matrix, pts: seq<Vec2>, style: Style)
    ensures var cmds := PolylineCmds(m, pts, style);
      if style.strokeColor.a == 0.0 || |pts| <= 1 then cmds == []
      else
        && |cmds| == |pts| - 1
        && forall i :: 0 <= i < |pts| - 1 ==>
             cmds[i] == LineCmd(Apply(m, pts[i]), Apply(m, pts[i + 1]), style.strokeColor)
  {
    if style.strokeColor.a != 0.0 && |pts| > 1 {
      EdgeRunLength(m, pts, style.strokeColor, |pts| - 1);
      forall i | 0 <= i < |pts| - 1
        ensures PolylineCmds(m, pts, style)[i]
             == LineCmd(Apply(m, pts[i]), Apply(m, pts[i + 1]), style.strokeColor)
      {
        EdgeRunOpen(m, pts, style.strokeColor, |pts| - 1, i);
      }
    }
  }

  /** A polygon outline is the polyline through the same points plus the
      closing edge (p_n-1, p_0). */
  lemma PolygonCloses(m: Matrix, pts: seq<Vec2>, style: Style)
    requires |pts| >= 2 && style.strokeColor.a != 0.0
    ensures PolygonOutline(m, pts, style.strokeColor)
         == PolylineCmds(m, pts, style)
            + [LineCmd(Apply(m, pts[|pts| - 1]), Apply(m, pts[0]), style.strokeColor)]
  {
    var n := |pts|;
    assert (n - 1) % n == n - 1;
    assert n % n == 0;
  }

  /** A rect's outline is the polygon outline through its corners in the
      order (x, y), (x + w, y), (x + w, y + h), (x, y + h). */
  lemma RectStrokeIsPolygon(m: Matrix, pos: Vec2, dim: Vec2, c: Color)
    ensures RectStroke(m, pos, dim, c)
         == PolygonOutline(m, [pos, Vec2(pos.x + dim.x, pos.y), Vec2(pos.x + dim.x, pos.y + dim.y),
                               Vec2(pos.x, pos.y + dim.y)], c)
  {
    var pts := [pos, Vec2(pos.x + dim.x, pos.y), Vec2(pos.x + dim.x, pos.y + dim.y), Vec2(pos.x, pos.y + dim.y)];
    if c.a != 0.0 {
      var run := EdgeRun(m, pts, c, 4);
      var p := RectCorners(m, pos, dim);
      EdgeRunAt(m, pts, c, 4, 0);
      EdgeRunAt(m, pts, c, 4, 1);
      EdgeRunAt(m, pts, c, 4, 2);
      EdgeRunAt(m, pts, c, 4, 3);
      assert run == [LineCmd(p[0], p[1], c), LineCmd(p[1], p[3], c), LineCmd(p[3], p[2], c), LineCmd(p[2], p[0], c)];
    }
  }

  /** Triangle j of a triangulated fill has corners 3j, 3j + 1, 3j + 2. */
  lemma {:induction false} TriangleRunAt(m: Matrix, corners: seq<Vec2>, c: Color, k: nat, j: nat)
    requires 3 * k <= |corners| && j < k
    ensures |TriangleRun(m, corners, c, k)| == k
    ensures TriangleRun(m, corners, c, k)[j]
         == TriangleCmd(Triangle(Apply(m, corners[3 * j]), Apply(m, corners[3 * j + 1]),
                                 Apply(m, corners[3 * j + 2])), c)
  {
    if j < k - 1 {
      TriangleRunAt(m, corners, c, k - 1, j);
    } else {
      TriangleRunLength(m, corners, c, k - 1);
    }
  }

  lemma {:induction false} TriangleRunLength(m: Matrix, corners: seq<Vec2>, c: Color, k: nat)
    requires 3 * k <= |corners|
    ensures |TriangleRun(m, corners, c, k)| == k
  {
    if k > 0 {
      TriangleRunLength(m, corners, c, k - 1);
    }
  }

  /** Every command is a line of colour c. */
  predicate Strokes(cmds: seq<Cmd>, c: Color)
  {
    forall i :: 0 <= i < |cmds| ==> cmds[i].LineCmd? && cmds[i].color == c
  }

  /** Every command is a triangle of colour c. */
  predicate Fills(cmds: seq<Cmd>, c: Color)
  {
    forall i :: 0 <= i < |cmds| ==> cmds[i].TriangleCmd? && cmds[i].color == c
  }

  lemma {:induction false} EdgeRunStrokes(m: Matrix, pts: seq<Vec2>, c: Color, k: nat)
    requires k <= |pts|
    ensures Strokes(EdgeRun(m, pts, c, k), c)
  {
    if k > 0 {
      EdgeRunStrokes(m, pts, c, k - 1);
    }
  }

  lemma {:induction false} TriangleRunFills(m: Matrix, corners: seq<Vec2>, c: Color, k: nat)
    requires 3 * k <= |corners|
    ensures Fills(TriangleRun(m, corners, c, k), c)
  {
    if k > 0 {
      TriangleRunFills(m, corners, c, k - 1);
    }
  }

  /** Every command is a line in the stroke colour or a triangle in the
      fill colour, each only when that colour's alpha is not 0. */
  predicate PaintsWith(cmds: seq<Cmd>, style: Style)
  {
    forall i :: 0 <= i < |cmds| ==>
      && (cmds[i].LineCmd? ==> cmds[i].color == style.strokeColor && style.strokeColor.a != 0.0)
      && (cmds[i].TriangleCmd? ==> cmds[i].color == style.fillColor && style.fillColor.a != 0.0)
      && !cmds[i].PointCmd?
  }

  /** A stroke of n lines in a visible stroke colour paints with the style. */
  lemma StrokesPaint(cmds: seq<Cmd>, style: Style)
    requires Strokes(cmds, style.strokeColor) && (cmds != [] ==> style.strokeColor.a != 0.0)
    ensures PaintsWith(cmds, style)
  {
  }

  /** A list of triangles in a visible fill colour paints with the style. */
  lemma FillsPaint(cmds: seq<Cmd>, style: Style)
    requires Fills(cmds, style.fillColor) && (cmds != [] ==> style.fillColor.a != 0.0)
    ensures PaintsWith(cmds, style)
  {
  }

  /** Two lists that paint with a style paint with it one after the other. */
  lemma PaintsAppend(xs: seq<Cmd>, ys: seq<Cmd>, style: Style)
    requires PaintsWith(xs, style) && PaintsWith(ys, style)
    ensures PaintsWith(xs + ys, style)
  {
    forall i | 0 <= i < |xs + ys|
      ensures (xs + ys)[i] == if i < |xs| then xs[i] else ys[i - |xs|]
    {
    }
  }

  /** draw_polyline emits lines only, in a visible stroke colour. */
  lemma PolylinePaints(m: Matrix, pts: seq<Vec2>, style: Style)
    ensures PaintsWith(PolylineCmds(m, pts, style), style)
  {
    if style.strokeColor.a != 0.0 && |pts| > 1 {
      EdgeRunStrokes(m, pts, style.strokeColor, |pts| - 1);
      StrokesPaint(PolylineCmds(m, pts, style), style);
    }
  }

  /** draw_rect emits triangles in a visible fill colour, then lines in a
      visible stroke colour. */
  lemma RectPaints(m: Matrix, pos: Vec2, dim: Vec2, style: Style)
    ensures PaintsWith(RectCmds(m, pos, dim, style), style)
  {
    PaintsAppend(RectFill(m, pos, dim, style.fillColor), RectStroke(m, pos, dim, style.strokeColor), style);
  }

  /** draw_polygon emits triangles in a visible fill colour, then lines in a
      visible stroke colour. */
  lemma PolygonPaints(tri: Triangulator, m: Matrix, pts: seq<Vec2>, style: Style)
    ensures PaintsWith(PolygonCmds(tri, m, pts, style), style)
  {
    var corners := tri(pts);
    var fill := if style.fillColor.a != 0.0 then TriangleRun(m, corners, style.fillColor, |corners| / 3) else [];
    var stroke := PolygonOutline(m, pts, style.strokeColor);
    if style.fillColor.a != 0.0 {
      TriangleRunFills(m, corners, style.fillColor, |corners| / 3);
    }
    FillsPaint(fill, style);
    if style.strokeColor.a != 0.0 {
      EdgeRunStrokes(m, pts, style.strokeColor, |pts|);
    }
    StrokesPaint(stroke, style);
    PaintsAppend(fill, stroke, style);
  }

  /** What a primitive emits: a point is one point in the fill colour and a
      line one line in the stroke colour, whatever their alpha; a polyline,
      rect or polygon emits lines only in a stroke colour whose alpha is not
      0 and triangles only in a fill colour whose alpha is not 0; ellipses
      and images emit nothing. */
  lemma PrimitiveCmds(tri: Triangulator, top: Matrix, e: Element)
    requires !e.GroupElement?
    ensures var cmds := Emit(tri, top, e);
      && (e.PointElement? ==> |cmds| == 1 && cmds[0].PointCmd? && cmds[0].color == e.style.fillColor)
      && (e.LineElement? ==> |cmds| == 1 && cmds[0].LineCmd? && cmds[0].color == e.style.strokeColor)
      && (e.EllipseElement? || e.ImageElement? ==> cmds == [])
      && (e.PolylineElement? || e.RectElement? || e.PolygonElement? ==> PaintsWith(cmds, e.style))
  {
    var m := Mul(top, e.transform);
    match e
    case PolylineElement(_, style, pts) => PolylinePaints(m, pts, style);
    case RectElement(_, style, pos, dim) => RectPaints(m, pos, dim, style);
    case PolygonElement(_, style, pts) => PolygonPaints(tri, m, pts, style);
    case _ =>
  }
}
