/** The colour helpers: source-over blending, tinting toward white, the
    clamped RMS average, and the brightness adjustment used for line
    coverage (kept abstract). Channels are exact reals. */
module Colors {
  import opened Geometry

  datatype Color = Color(r: real, g: real, b: real, a: real)

  predicate InUnit(v: real)
  {
    0.0 <= v <= 1.0
  }

  predicate ValidColor(c: Color)
  {
    InUnit(c.r) && InUnit(c.g) && InUnit(c.b) && InUnit(c.a)
  }

  /** A default-constructed Color (color.h is not part of this model; its
      constructor is taken to start from black, alpha 1). */
  const DefaultColor: Color := Color(0.0, 0.0, 0.0, 1.0)

  /** `Color::Black`. */
  const Black: Color := Color(0.0, 0.0, 0.0, 1.0)

  /** Below this composite alpha `blend_colors` returns early. */
  const Transparent: real := 0.000001

  /** `bright_color(c, f)`: an HSV recolouring whose arithmetic is not part of
      this model; what the model keeps is that it returns c's alpha. */
  type BrightFn = f: (Color, real) -> Color
    | forall c: Color, k: real :: f(c, k).a == c.a
    witness (c: Color, k: real) => c

  /** The real-valued `blend(A, B)` macro, sqrt(0.5*A^2 + 0.5*B^2), kept
      abstract with the two facts that hold of it: blending a value with
      itself returns it, and the blend lies between its operands. */
  type RmsFn = f: (real, real) -> real
    | (forall v: real :: f(v, v) == v)
      && (forall u: real, v: real :: Min(u, v) <= f(u, v) <= Max(u, v))
    witness (u: real, v: real) => u

  /** The alpha with which fg over bg covers: 1 - (1 - fg.a) * (1 - bg.a). */
  function CompositeAlpha(fa: real, ba: real): real
  {
    1.0 - (1.0 - fa) * (1.0 - ba)
  }

  /** One channel of p over q with fg alpha t: p * t + q * (1 - t). */
  function Over(p: real, q: real, t: real): real
  {
    p * t + q * (1.0 - t)
  }

  /** `blend_colors(fg, bg)`: source-over compositing of fg onto bg. */
  function BlendColors(fg: Color, bg: Color): Color
  {
    var a := CompositeAlpha(fg.a, bg.a);
    if a < Transparent then DefaultColor.(a := a)
    else Color(Over(fg.r, bg.r, fg.a), Over(fg.g, bg.g, fg.a), Over(fg.b, bg.b, fg.a), a)
  }

  lemma ProductNonneg(d: real, t: real)
    requires d >= 0.0 && t >= 0.0
    ensures d * t >= 0.0
  {
  }

  lemma MulSub(x: real, y: real, t: real)
    ensures (x - y) * t == x * t - y * t
  {
  }

  lemma MulOneMinus(x: real, t: real)
    ensures x * (1.0 - t) == x - x * t
  {
  }

  /** Scaling a non-negative d by a factor in [0, 1] stays within [0, d]. */
  lemma ScaleBelow(d: real, t: real)
    requires d >= 0.0 && InUnit(t)
    ensures 0.0 <= d * t <= d && 0.0 <= t * d <= d
  {
    ProductNonneg(d, t);
    ProductNonneg(d, 1.0 - t);
    MulOneMinus(d, t);
    assert t * d == d * t;
  }

  /** A weighted mean with weight t in [0, 1] lies between its two points. */
  lemma Convex(p: real, q: real, t: real)
    requires InUnit(t)
    ensures Min(p, q) <= Over(p, q, t) <= Max(p, q)
  {
    MulOneMinus(q, t);
    MulSub(p, q, t);
    MulOneMinus(p - q, t);
    MulSub(q, p, t);
    MulOneMinus(q - p, t);
    if q <= p {
      ProductNonneg(p - q, t);
      ProductNonneg(p - q, 1.0 - t);
    } else {
      ProductNonneg(q - p, t);
      ProductNonneg(q - p, 1.0 - t);
    }
  }

  /** The composite alpha is the probability that fg or bg covers: it lies
      in [0, 1] and is at least either input alpha. */
  lemma BlendAlpha(fg: Color, bg: Color)
    requires InUnit(fg.a) && InUnit(bg.a)
    ensures var c := BlendColors(fg, bg);
      InUnit(c.a) && c.a >= Max(fg.a, bg.a)
  {
    CoverAtLeast(fg.a, bg.a);
    CoverAtLeast(bg.a, fg.a);
    CoverSymmetric(fg.a, bg.a);
  }

  /** The composite alpha lies in [0, 1] and is at least the first alpha. */
  lemma CoverAtLeast(fa: real, ba: real)
    requires InUnit(fa) && InUnit(ba)
    ensures InUnit(CompositeAlpha(fa, ba)) && CompositeAlpha(fa, ba) >= fa
  {
    var w := (1.0 - fa) * (1.0 - ba);
    ScaleBelow(1.0 - fa, 1.0 - ba);
    assert 0.0 <= w <= 1.0 - fa;
  }

  lemma CoverSymmetric(fa: real, ba: real)
    ensures CompositeAlpha(fa, ba) == CompositeAlpha(ba, fa)
  {
    assert (1.0 - fa) * (1.0 - ba) == (1.0 - ba) * (1.0 - fa);
  }

  /** Valid colours blend to a valid colour. */
  lemma BlendValid(fg: Color, bg: Color)
    requires ValidColor(fg) && ValidColor(bg)
    ensures ValidColor(BlendColors(fg, bg))
  {
    BlendAlpha(fg, bg);
    BlendChannel(fg.r, bg.r, fg.a);
    BlendChannel(fg.g, bg.g, fg.a);
    BlendChannel(fg.b, bg.b, fg.a);
  }

  /** Below the transparency epsilon `blend_colors` returns early with the
      default colour's RGB; otherwise each RGB channel of the result lies
      between the fg and bg channels. */
  lemma BlendChannels(fg: Color, bg: Color)
    requires InUnit(fg.a)
    ensures var c := BlendColors(fg, bg);
      if c.a < Transparent then
        c.r == DefaultColor.r && c.g == DefaultColor.g && c.b == DefaultColor.b
      else
        && Min(fg.r, bg.r) <= c.r <= Max(fg.r, bg.r)
        && Min(fg.g, bg.g) <= c.g <= Max(fg.g, bg.g)
        && Min(fg.b, bg.b) <= c.b <= Max(fg.b, bg.b)
  {
    if 1.0 - (1.0 - fg.a) * (1.0 - bg.a) >= Transparent {
      Convex(fg.r, bg.r, fg.a);
      Convex(fg.g, bg.g, fg.a);
      Convex(fg.b, bg.b, fg.a);
    }
  }

  lemma BlendChannel(p: real, q: real, t: real)
    requires InUnit(p) && InUnit(q) && InUnit(t)
    ensures InUnit(Over(p, q, t)) && Min(p, q) <= Over(p, q, t) <= Max(p, q)
  {
    Convex(p, q, t);
  }

  /** An opaque foreground replaces the background (alpha becomes 1). */
  lemma BlendOpaque(fg: Color, bg: Color)
    requires fg.a == 1.0
    ensures BlendColors(fg, bg) == fg
  {
  }

  /** A fully transparent foreground leaves a visible background unchanged. */
  lemma BlendClear(fg: Color, bg: Color)
    requires fg.a == 0.0 && bg.a >= Transparent
    ensures BlendColors(fg, bg) == bg
  {
  }

  /** `tint_color(fg, t)`: move every RGB channel toward 1 by the factor t. */
  function TintColor(fg: Color, t: real): (c: Color)
    ensures c.a == fg.a
  {
    Color(fg.r + (1.0 - fg.r) * t, fg.g + (1.0 - fg.g) * t, fg.b + (1.0 - fg.b) * t, fg.a)
  }

  /** Factor 0 is the identity, factor 1 gives white, and valid inputs give a
      valid colour whose channels are no darker than the input's. */
  lemma TintProperties(fg: Color, t: real)
    ensures TintColor(fg, 0.0) == fg
    ensures TintColor(fg, 1.0) == Color(1.0, 1.0, 1.0, fg.a)
    ensures ValidColor(fg) && InUnit(t) ==>
      var c := TintColor(fg, t);
      ValidColor(c) && c.r >= fg.r && c.g >= fg.g && c.b >= fg.b
  {
    if ValidColor(fg) && InUnit(t) {
      Convex(1.0, fg.r, t);
      Convex(1.0, fg.g, t);
      Convex(1.0, fg.b, t);
      TintIsOver(fg.r, t);
      TintIsOver(fg.g, t);
      TintIsOver(fg.b, t);
    }
  }

  /** Moving v toward 1 by t is white over v with alpha t. */
  lemma TintIsOver(v: real, t: real)
    ensures v + (1.0 - v) * t == Over(1.0, v, t)
  {
    MulSub(1.0, v, t);
    MulOneMinus(v, t);
  }

  /** The `truncate(C)` macro: clamp to [0, 1]. */
  function Clamp(v: real): real
  {
    if v < 0.0 then 0.0 else if v > 1.0 then 1.0 else v
  }

  /** `avg(fg, bg)`: RMS-blend the RGB channels and average alpha, each
      clamped to [0, 1]. */
  function Avg(blend: RmsFn, fg: Color, bg: Color): (c: Color)
    ensures ValidColor(c)
  {
    Color(Clamp(blend(fg.r, bg.r)), Clamp(blend(fg.g, bg.g)), Clamp(blend(fg.b, bg.b)),
          Clamp(0.5 * fg.a + 0.5 * bg.a))
  }

  /** On valid colours the clamps never bite: the result is the plain RMS
      blend of each RGB channel and the mean alpha; equal inputs come back
      unchanged. */
  lemma AvgValid(blend: RmsFn, fg: Color, bg: Color)
    requires ValidColor(fg) && ValidColor(bg)
    ensures Avg(blend, fg, bg) ==
      Color(blend(fg.r, bg.r), blend(fg.g, bg.g), blend(fg.b, bg.b), (fg.a + bg.a) / 2.0)
    ensures Avg(blend, fg, fg) == fg
  {
    assert Min(fg.r, bg.r) <= blend(fg.r, bg.r) <= Max(fg.r, bg.r);
    assert Min(fg.g, bg.g) <= blend(fg.g, bg.g) <= Max(fg.g, bg.g);
    assert Min(fg.b, bg.b) <= blend(fg.b, bg.b) <= Max(fg.b, bg.b);
    assert blend(fg.r, fg.r) == fg.r && blend(fg.g, fg.g) == fg.g && blend(fg.b, fg.b) == fg.b;
  }
}
