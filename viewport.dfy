/** The viewport: a square view box (centre x, y and half-width span) and
    the matrix that maps SVG canvas coordinates into normalized device
    coordinates, with pan and zoom. */
module Viewport {
  import opened Geometry

  datatype Viewbox = Viewbox(x: real, y: real, span: real)

  /** The matrix `set_viewbox` builds: scale by 1 / (2 * span), then shift
      so that the box's lower corner goes to the origin. */
  function ViewboxMatrix(b: Viewbox): (m: Matrix)
    requires b.span != 0.0
  {
    var view := 1.0 / (b.span * 2.0);
    var wxmin := -(b.x - b.span);
    var wymin := -(b.y - b.span);
    Matrix(view, 0.0, view * wxmin,
           0.0, view, view * wymin,
           0.0, 0.0, 1.0)
  }

  /** `update_viewbox(dx, dy, scale)`: pan opposite to the drag delta and
      zoom the span multiplicatively. */
  function Updated(b: Viewbox, dx: real, dy: real, scale: real): Viewbox
  {
    Viewbox(b.x - dx, b.y - dy, b.span * scale)
  }

  /** The view matrix is a uniform scale plus a translation that sends every
      point p to ((p - lower corner) / (2 * span)). */
  lemma ViewboxNormalises(b: Viewbox, p: Vec2)
    requires b.span != 0.0
    ensures Affine(ViewboxMatrix(b))
    ensures var m := ViewboxMatrix(b);
      m.m00 == m.m11 && m.m01 == 0.0 && m.m10 == 0.0
    ensures Apply(ViewboxMatrix(b), p)
         == Vec2((p.x - (b.x - b.span)) / (2.0 * b.span), (p.y - (b.y - b.span)) / (2.0 * b.span))
  {
    var view := 1.0 / (b.span * 2.0);
    assert view * p.x + view * -(b.x - b.span) == (p.x - (b.x - b.span)) * view;
    assert view * p.y + view * -(b.y - b.span) == (p.y - (b.y - b.span)) * view;
  }

  /** The box's corners go to (0, 0) and (1, 1), its centre to (0.5, 0.5). */
  lemma ViewboxCorners(b: Viewbox)
    requires b.span != 0.0
    ensures Apply(ViewboxMatrix(b), Vec2(b.x - b.span, b.y - b.span)) == Vec2(0.0, 0.0)
    ensures Apply(ViewboxMatrix(b), Vec2(b.x + b.span, b.y + b.span)) == Vec2(1.0, 1.0)
    ensures Apply(ViewboxMatrix(b), Vec2(b.x, b.y)) == Vec2(0.5, 0.5)
  {
    ViewboxNormalises(b, Vec2(b.x - b.span, b.y - b.span));
    ViewboxNormalises(b, Vec2(b.x + b.span, b.y + b.span));
    ViewboxNormalises(b, Vec2(b.x, b.y));
  }

  /** An example of ViewboxCorners: for the box centred at the origin with
      span 1 the origin is the centre, so it goes to (0.5, 0.5), and (1, 1)
      goes to (1, 1). It records that the code, not its comments, is
      followed here. */
  lemma UnitViewbox()
    ensures Apply(ViewboxMatrix(Viewbox(0.0, 0.0, 1.0)), Vec2(0.0, 0.0)) == Vec2(0.5, 0.5)
    ensures Apply(ViewboxMatrix(Viewbox(0.0, 0.0, 1.0)), Vec2(1.0, 1.0)) == Vec2(1.0, 1.0)
  {
    ViewboxCorners(Viewbox(0.0, 0.0, 1.0));
  }

  /** A zero pan with unit zoom changes nothing. */
  lemma UpdateIdentity(b: Viewbox)
    ensures Updated(b, 0.0, 0.0, 1.0) == b
  {
  }

  /** Two updates equal one with the deltas summed and the scales multiplied. */
  lemma UpdateCompose(b: Viewbox, dx1: real, dy1: real, s1: real, dx2: real, dy2: real, s2: real)
    ensures Updated(Updated(b, dx1, dy1, s1), dx2, dy2, s2) == Updated(b, dx1 + dx2, dy1 + dy2, s1 * s2)
  {
    assert b.span * s1 * s2 == b.span * (s1 * s2);
  }

  class ViewportImp {
    var x: real
    var y: real
    var span: real
    var svg2Norm: Matrix

    function Box(): Viewbox
      reads this
    {
      Viewbox(x, y, span)
    }

    /** `set_viewbox`: store the box and derive the view matrix from it. */
    method SetViewbox(x: real, y: real, span: real)
      requires span != 0.0
      modifies this
      ensures this.x == x && this.y == y && this.span == span
      ensures svg2Norm == ViewboxMatrix(Viewbox(x, y, span))
    {
      this.x := x;
      this.y := y;
      this.span := span;
      var view := 1.0 / (span * 2.0);
      var wxmin := -(x - span);
      var wymin := -(y - span);
      svg2Norm := Matrix(view, 0.0, view * wxmin,
                         0.0, view, view * wymin,
                         0.0, 0.0, 1.0);
    }

    /** `update_viewbox`: pan and zoom in place, then recompute the matrix
      from the new state. */
    method UpdateViewbox(dx: real, dy: real, scale: real)
      requires span * scale != 0.0
      modifies this
      ensures Box() == Updated(old(Box()), dx, dy, scale)
      ensures svg2Norm == ViewboxMatrix(Box())
    {
      x := x - dx;
      y := y - dy;
      span := span * scale;
      SetViewbox(x, y, span);
    }
  }
}
