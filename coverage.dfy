/** rasterize_triangle and fill_sample: which supersamples a triangle
    covers, in the order the four nested loops visit them, and how each
    covered sample is blended into the sample buffer. */
module Coverage {
  import opened Geometry
  import opened Bytes
  import opened Layout
  import opened Colors
  import opened Svg
  import opened Emission
  import opened Raster

  /** Sample (ix, iy) of pixel (x, y). */
  datatype Sample = Sample(x: int, y: int, ix: int, iy: int)

  /** The side of a sample cell, 1 / sample_rate. */
  function SampleSize(rate: nat): real
  {
    if rate == 0 then 0.0 else 1.0 / rate as real
  }

  /** Where rasterize_triangle tests a sample: x + center + ix * size. */
  function SamplePoint(rate: nat, s: Sample): Vec2
  {
    var size := SampleSize(rate);
    Vec2(s.x as real + size / 2.0 + s.ix as real * size, s.y as real + size / 2.0 + s.iy as real * size)
  }

  /** The coverage test, tried for both windings of the triangle. */
  predicate Covered(inside: InsideTest, t: Triangle, p: Vec2)
  {
    inside(t.v0, t.v1, t.v2, p) || inside(t.v0, t.v2, t.v1, p)
  }

  /** The bounding box the loops walk, both ends inclusive. */
  function XMin(t: Triangle): int { Floor(Min3(t.v0.x, t.v1.x, t.v2.x)) }
  function XMax(t: Triangle): int { Ceil(Max3(t.v0.x, t.v1.x, t.v2.x)) }
  function YMin(t: Triangle): int { Floor(Min3(t.v0.y, t.v1.y, t.v2.y)) }
  function YMax(t: Triangle): int { Ceil(Max3(t.v0.y, t.v1.y, t.v2.y)) }

  predicate InBox(cfg: Config, t: Triangle, s: Sample)
  {
    && XMin(t) <= s.x <= XMax(t) && YMin(t) <= s.y <= YMax(t)
    && 0 <= s.ix < cfg.rate && 0 <= s.iy < cfg.rate
  }

  /** A sample rasterize_triangle passes to fill_sample. */
  predicate Hit(cfg: Config, t: Triangle, s: Sample)
  {
    InBox(cfg, t, s) && Covered(cfg.inside, t, SamplePoint(cfg.rate, s))
  }

  /** The innermost loop: covered samples (ix, 0) .. (ix, n - 1) of pixel (x, y). */
  function HitsIy(cfg: Config, t: Triangle, x: int, y: int, ix: int, n: nat): seq<Sample>
  {
    if n == 0 then []
    else
      var s := Sample(x, y, ix, n - 1);
      HitsIy(cfg, t, x, y, ix, n - 1) + (if Covered(cfg.inside, t, SamplePoint(cfg.rate, s)) then [s] else [])
  }

  /** The ix loop: columns 0 .. n - 1 of pixel (x, y)'s samples. */
  function HitsIx(cfg: Config, t: Triangle, x: int, y: int, n: nat): seq<Sample>
  {
    if n == 0 then [] else HitsIx(cfg, t, x, y, n - 1) + HitsIy(cfg, t, x, y, n - 1, cfg.rate)
  }

  /** The y loop: pixels (x, lo) .. (x, y - 1). */
  function HitsCol(cfg: Config, t: Triangle, x: int, lo: int, y: int): seq<Sample>
    decreases y - lo
  {
    if y <= lo then [] else HitsCol(cfg, t, x, lo, y - 1) + HitsIx(cfg, t, x, y - 1, cfg.rate)
  }

  /** The x loop: columns lo .. x - 1 of the bounding box. */
  function HitsBox(cfg: Config, t: Triangle, lo: int, x: int): seq<Sample>
    decreases x - lo
  {
    if x <= lo then [] else HitsBox(cfg, t, lo, x - 1) + HitsCol(cfg, t, x - 1, YMin(t), YMax(t) + 1)
  }

  /** Every sample rasterize_triangle fills, in the order it fills them. */
  function TriangleHits(cfg: Config, t: Triangle): seq<Sample>
  {
    HitsBox(cfg, t, XMin(t), XMax(t) + 1)
  }

  lemma {:induction false} HitsIyMem(cfg: Config, t: Triangle, x: int, y: int, ix: int, n: nat, s: Sample)
    ensures s in HitsIy(cfg, t, x, y, ix, n) <==>
      s.x == x && s.y == y && s.ix == ix && 0 <= s.iy < n && Covered(cfg.inside, t, SamplePoint(cfg.rate, s))
  {
    if n > 0 {
      HitsIyMem(cfg, t, x, y, ix, n - 1, s);
    }
  }

  lemma {:induction false} HitsIxMem(cfg: Config, t: Triangle, x: int, y: int, n: nat, s: Sample)
    ensures s in HitsIx(cfg, t, x, y, n) <==>
      && s.x == x && s.y == y && 0 <= s.ix < n && 0 <= s.iy < cfg.rate
      && Covered(cfg.inside, t, SamplePoint(cfg.rate, s))
  {
    if n > 0 {
      HitsIxMem(cfg, t, x, y, n - 1, s);
      HitsIyMem(cfg, t, x, y, n - 1, cfg.rate, s);
    }
  }

  lemma {:induction false} HitsColMem(cfg: Config, t: Triangle, x: int, lo: int, y: int, s: Sample)
    ensures s in HitsCol(cfg, t, x, lo, y) <==>
      && s.x == x && lo <= s.y < y && 0 <= s.ix < cfg.rate && 0 <= s.iy < cfg.rate
      && Covered(cfg.inside, t, SamplePoint(cfg.rate, s))
    decreases y - lo
  {
    if y > lo {
      HitsColMem(cfg, t, x, lo, y - 1, s);
      HitsIxMem(cfg, t, x, y - 1, cfg.rate, s);
    }
  }

  lemma {:induction false} HitsBoxMem(cfg: Config, t: Triangle, lo: int, x: int, s: Sample)
    ensures s in HitsBox(cfg, t, lo, x) <==>
      && lo <= s.x < x && YMin(t) <= s.y <= YMax(t) && 0 <= s.ix < cfg.rate && 0 <= s.iy < cfg.rate
      && Covered(cfg.inside, t, SamplePoint(cfg.rate, s))
    decreases x - lo
  {
    if x > lo {
      HitsBoxMem(cfg, t, lo, x - 1, s);
      HitsColMem(cfg, t, x - 1, YMin(t), YMax(t) + 1, s);
    }
  }

  /** rasterize_triangle fills a sample exactly when it lies in the
      triangle's bounding box and the coverage test accepts its centre. */
  lemma TriangleHitsMem(cfg: Config, t: Triangle, s: Sample)
    ensures s in TriangleHits(cfg, t) <==> Hit(cfg, t, s)
  {
    HitsBoxMem(cfg, t, XMin(t), XMax(t) + 1, s);
  }

  /** The order of the four nested loops: x, then y, then ix, then iy. */
  predicate Before(a: Sample, b: Sample)
  {
    || a.x < b.x
    || (a.x == b.x && a.y < b.y)
    || (a.x == b.x && a.y == b.y && a.ix < b.ix)
    || (a.x == b.x && a.y == b.y && a.ix == b.ix && a.iy < b.iy)
  }

  predicate Increasing(hs: seq<Sample>)
  {
    forall i, j :: 0 <= i < j < |hs| ==> Before(hs[i], hs[j])
  }

  lemma IncreasingAppend(hs: seq<Sample>, ks: seq<Sample>)
    requires Increasing(hs) && Increasing(ks)
    requires forall a, b :: a in hs && b in ks ==> Before(a, b)
    ensures Increasing(hs + ks)
  {
    forall i, j | 0 <= i < j < |hs + ks|
      ensures Before((hs + ks)[i], (hs + ks)[j])
    {
      if i < |hs| && j >= |hs| {
        assert (hs + ks)[i] in hs && (hs + ks)[j] in ks;
      }
    }
  }

  lemma {:induction false} HitsIyIncreasing(cfg: Config, t: Triangle, x: int, y: int, ix: int, n: nat)
    ensures Increasing(HitsIy(cfg, t, x, y, ix, n))
  {
    if n > 0 {
      var s := Sample(x, y, ix, n - 1);
      HitsIyIncreasing(cfg, t, x, y, ix, n - 1);
      forall a | a in HitsIy(cfg, t, x, y, ix, n - 1)
        ensures Before(a, s)
      {
        HitsIyMem(cfg, t, x, y, ix, n - 1, a);
      }
      var tail := if Covered(cfg.inside, t, SamplePoint(cfg.rate, s)) then [s] else [];
      IncreasingAppend(HitsIy(cfg, t, x, y, ix, n - 1), tail);
    }
  }

  lemma {:induction false} HitsIxIncreasing(cfg: Config, t: Triangle, x: int, y: int, n: nat)
    ensures Increasing(HitsIx(cfg, t, x, y, n))
  {
    if n > 0 {
      HitsIxIncreasing(cfg, t, x, y, n - 1);
      HitsIyIncreasing(cfg, t, x, y, n - 1, cfg.rate);
      forall a, b | a in HitsIx(cfg, t, x, y, n - 1) && b in HitsIy(cfg, t, x, y, n - 1, cfg.rate)
        ensures Before(a, b)
      {
        ColumnsBefore(cfg, t, x, y, n - 1, a, b);
      }
      IncreasingAppend(HitsIx(cfg, t, x, y, n - 1), HitsIy(cfg, t, x, y, n - 1, cfg.rate));
    }
  }

  /** Columns 0 .. n - 1 of a pixel come before column n. */
  lemma ColumnsBefore(cfg: Config, t: Triangle, x: int, y: int, n: nat, a: Sample, b: Sample)
    requires a in HitsIx(cfg, t, x, y, n) && b in HitsIy(cfg, t, x, y, n, cfg.rate)
    ensures Before(a, b)
  {
    HitsIxMem(cfg, t, x, y, n, a);
    HitsIyMem(cfg, t, x, y, n, cfg.rate, b);
  }

  lemma {:induction false} HitsColIncreasing(cfg: Config, t: Triangle, x: int, lo: int, y: int)
    ensures Increasing(HitsCol(cfg, t, x, lo, y))
    decreases y - lo
  {
    if y > lo {
      HitsColIncreasing(cfg, t, x, lo, y - 1);
      HitsIxIncreasing(cfg, t, x, y - 1, cfg.rate);
      forall a, b | a in HitsCol(cfg, t, x, lo, y - 1) && b in HitsIx(cfg, t, x, y - 1, cfg.rate)
        ensures Before(a, b)
      {
        HitsColMem(cfg, t, x, lo, y - 1, a);
        HitsIxMem(cfg, t, x, y - 1, cfg.rate, b);
      }
      IncreasingAppend(HitsCol(cfg, t, x, lo, y - 1), HitsIx(cfg, t, x, y - 1, cfg.rate));
    }
  }

  lemma {:induction false} HitsBoxIncreasing(cfg: Config, t: Triangle, lo: int, x: int)
    ensures Increasing(HitsBox(cfg, t, lo, x))
    decreases x - lo
  {
    if x > lo {
      var col := HitsCol(cfg, t, x - 1, YMin(t), YMax(t) + 1);
      HitsBoxIncreasing(cfg, t, lo, x - 1);
      HitsColIncreasing(cfg, t, x - 1, YMin(t), YMax(t) + 1);
      forall a, b | a in HitsBox(cfg, t, lo, x - 1) && b in col
        ensures Before(a, b)
      {
        HitsBoxMem(cfg, t, lo, x - 1, a);
        HitsColMem(cfg, t, x - 1, YMin(t), YMax(t) + 1, b);
      }
      IncreasingAppend(HitsBox(cfg, t, lo, x - 1), col);
    }
  }

  /** The loops visit samples in strictly increasing (x, y, ix, iy) order,
      so no sample is blended twice by one triangle. */
  lemma TriangleHitsOnce(cfg: Config, t: Triangle)
    ensures Increasing(TriangleHits(cfg, t))
    ensures var hs := TriangleHits(cfg, t);
      forall i, j :: 0 <= i < j < |hs| ==> hs[i] != hs[j]
  {
    HitsBoxIncreasing(cfg, t, XMin(t), XMax(t) + 1);
  }

  /** The point where a sample's coverage is decided lies strictly inside its pixel's square,
      in the sample's own sub-cell. */
  lemma SampleInPixel(rate: nat, s: Sample)
    requires 0 <= s.ix < rate && 0 <= s.iy < rate
    ensures var p := SamplePoint(rate, s);
      && s.x as real < p.x < s.x as real + 1.0 && s.y as real < p.y < s.y as real + 1.0
      && Floor(p.x) == s.x && Floor(p.y) == s.y
  {
    var size := SampleSize(rate);
    assert size * rate as real == 1.0;
    SubCell(rate, s.ix);
    SubCell(rate, s.iy);
  }

  /** size/2 + i*size lies in (0, 1) for 0 <= i < rate. */
  lemma SubCell(rate: nat, i: int)
    requires 0 <= i < rate
    ensures 0.0 < SampleSize(rate) / 2.0 + i as real * SampleSize(rate) < 1.0
  {
    var size := SampleSize(rate);
    var r, q := rate as real, i as real + 0.5;
    assert size / 2.0 + i as real * size == q / r;
    QuotientInUnit(q, r);
  }

  lemma QuotientInUnit(q: real, r: real)
    requires 0.0 < q < r
    ensures 0.0 < q / r < 1.0
  {
    var v := q / r;
    assert v * r == q;
    PositiveFactor(v, r);
    assert (1.0 - v) * r == r - q;
    PositiveFactor(1.0 - v, r);
  }

  /** A product with a positive factor is positive only if the other one is. */
  lemma PositiveFactor(x: real, y: real)
    requires y > 0.0 && x * y > 0.0
    ensures x > 0.0
  {
    if x <= 0.0 {
      ProductNonneg(-x, y);
    }
  }

  /** fill_sample's four bytes lie in the sample buffer. */
  predicate CellFits(cfg: Config, n: int, s: Sample)
  {
    var i := SampleIndex(cfg.rate, cfg.w * cfg.rate, s.x, s.y, s.ix, s.iy);
    0 <= i && i + 4 <= n
  }

  /** The colour stored at byte offset i, channels scaled back to [0, 1]. */
  function Unpack(buf: seq<byte>, i: int): (c: Color)
    requires 0 <= i && i + 4 <= |buf|
    ensures ValidColor(c)
  {
    Color(buf[i] as real / 255.0, buf[i + 1] as real / 255.0, buf[i + 2] as real / 255.0, buf[i + 3] as real / 255.0)
  }

  /** fill_sample(x, y, ix, iy, c): blend c over the stored sample. */
  function FillSample(cfg: Config, buf: seq<byte>, c: Color, s: Sample): (r: seq<byte>)
    requires CellFits(cfg, |buf|, s)
    ensures |r| == |buf|
  {
    var i := SampleIndex(cfg.rate, cfg.w * cfg.rate, s.x, s.y, s.ix, s.iy);
    Store(buf, i, BlendColors(c, Unpack(buf, i)))
  }

  /** fill_sample writes only the four bytes of its own sample. */
  lemma FillSampleLocal(cfg: Config, buf: seq<byte>, c: Color, s: Sample, j: int)
    requires CellFits(cfg, |buf|, s) && 0 <= j < |buf|
    requires var i := SampleIndex(cfg.rate, cfg.w * cfg.rate, s.x, s.y, s.ix, s.iy);
      j < i || i + 4 <= j
    ensures FillSample(cfg, buf, c, s)[j] == buf[j]
  {
  }

  /** An opaque colour replaces the sample whatever it held. */
  lemma FillSampleOpaque(cfg: Config, buf: seq<byte>, c: Color, s: Sample, k: int)
    requires CellFits(cfg, |buf|, s) && c.a == 1.0 && ValidColor(c) && 0 <= k < 4
    ensures var i := SampleIndex(cfg.rate, cfg.w * cfg.rate, s.x, s.y, s.ix, s.iy);
      FillSample(cfg, buf, c, s)[i + k] as int == (Channel(c, k) * 255.0).Floor
  {
    var i := SampleIndex(cfg.rate, cfg.w * cfg.rate, s.x, s.y, s.ix, s.iy);
    BlendOpaque(c, Unpack(buf, i));
    ToByteUnit(Channel(c, k));
  }

  /** Blending never lowers a sample's stored alpha. */
  lemma FillSampleAlphaGrows(cfg: Config, buf: seq<byte>, c: Color, s: Sample)
    requires CellFits(cfg, |buf|, s) && InUnit(c.a)
    ensures var i := SampleIndex(cfg.rate, cfg.w * cfg.rate, s.x, s.y, s.ix, s.iy);
      FillSample(cfg, buf, c, s)[i + 3] >= buf[i + 3]
  {
    var i := SampleIndex(cfg.rate, cfg.w * cfg.rate, s.x, s.y, s.ix, s.iy);
    var bg := Unpack(buf, i);
    var a := BlendColors(c, bg).a;
    BlendAlpha(c, bg);
    ToByteUnit(a);
    assert bg.a * 255.0 == buf[i + 3] as real;
    assert a * 255.0 >= bg.a * 255.0;
  }

  /** A list of fill_sample calls, in order. rasterize_triangle is only
      modelled for triangles whose hits all lie in the buffer (TriangleSafe
      below), so the skip of a sample outside it never happens there. */
  function FillAll(cfg: Config, buf: seq<byte>, c: Color, hs: seq<Sample>): (r: seq<byte>)
    ensures |r| == |buf|
  {
    if hs == [] then buf
    else
      var b := FillAll(cfg, buf, c, hs[..|hs| - 1]);
      if CellFits(cfg, |b|, hs[|hs| - 1]) then FillSample(cfg, b, c, hs[|hs| - 1]) else b
  }

  ghost predicate AllFit(cfg: Config, n: int, hs: seq<Sample>)
  {
    forall k :: 0 <= k < |hs| ==> CellFits(cfg, n, hs[k])
  }

  /** Filling one list then another is filling their concatenation. */
  lemma {:induction false} FillAllAppend(cfg: Config, buf: seq<byte>, c: Color, hs: seq<Sample>, ks: seq<Sample>)
    ensures FillAll(cfg, buf, c, hs + ks) == FillAll(cfg, FillAll(cfg, buf, c, hs), c, ks)
    decreases |ks|
  {
    if ks == [] {
      assert hs + ks == hs;
    } else {
      var js := ks[..|ks| - 1];
      assert (hs + ks)[..|hs + ks| - 1] == hs + js;
      FillAllAppend(cfg, buf, c, hs, js);
    }
  }

  /** One fill_sample call. */
  lemma FillAllOne(cfg: Config, buf: seq<byte>, c: Color, s: Sample)
    requires CellFits(cfg, |buf|, s)
    ensures FillAll(cfg, buf, c, [s]) == FillSample(cfg, buf, c, s)
  {
    assert [s][..0] == [];
  }

  /** A byte outside every filled sample keeps its value. */
  lemma {:induction false} FillAllLocal(cfg: Config, buf: seq<byte>, c: Color, hs: seq<Sample>, j: int)
    requires 0 <= j < |buf|
    requires forall k :: 0 <= k < |hs| ==>
      var i := SampleIndex(cfg.rate, cfg.w * cfg.rate, hs[k].x, hs[k].y, hs[k].ix, hs[k].iy);
      j < i || i + 4 <= j
    ensures FillAll(cfg, buf, c, hs)[j] == buf[j]
  {
    if hs != [] {
      FillAllLocal(cfg, buf, c, hs[..|hs| - 1], j);
      var b := FillAll(cfg, buf, c, hs[..|hs| - 1]);
      if CellFits(cfg, |b|, hs[|hs| - 1]) {
        FillSampleLocal(cfg, b, c, hs[|hs| - 1], j);
      }
    }
  }

  /** Every sample rasterize_triangle fills lies in the sample buffer. */
  ghost predicate TriangleSafe(cfg: Config, n: int, t: Triangle)
  {
    forall s {:trigger Hit(cfg, t, s)} :: Hit(cfg, t, s) ==> CellFits(cfg, n, s)
  }

  lemma TriangleHitsFit(cfg: Config, n: int, t: Triangle)
    requires TriangleSafe(cfg, n, t)
    ensures AllFit(cfg, n, TriangleHits(cfg, t))
  {
    var hs := TriangleHits(cfg, t);
    forall k | 0 <= k < |hs|
      ensures CellFits(cfg, n, hs[k])
    {
      TriangleHitsMem(cfg, t, hs[k]);
    }
  }

  /** rasterize_triangle(v0, v1, v2, c) on the sample buffer. */
  function TriangleEffect(cfg: Config, buf: seq<byte>, c: Color, t: Triangle): (r: seq<byte>)
    ensures |r| == |buf|
  {
    FillAll(cfg, buf, c, TriangleHits(cfg, t))
  }

  /** rasterize_triangle clips nothing: a sample in column w of the box
      has the buffer offset of pixel (0, y + 1)'s sample, so a triangle
      crossing the right edge paints the start of the next pixel row. */
  lemma RightEdgeWraps(w: nat, rate: nat, y: int, ix: int, iy: int)
    ensures SampleIndex(rate, w * rate, w, y, ix, iy) == SampleIndex(rate, w * rate, 0, y + 1, ix, iy)
  {
    assert (y + 1) * rate * (w * rate) == y * rate * (w * rate) + rate * (w * rate);
    assert rate * (w * rate) == w * rate * rate;
  }
}
