/** Where the renderer keeps its bytes. The render target is row-major with
    4 bytes per pixel. In the sample buffer every pixel owns a contiguous
    block of rate * rate cells of 4 bytes, pixels following each other row
    by row, and inside the block cell (ix, iy) sits at ix + iy * rate. */
module Layout {

  /** fill_sample's byte offset of cell (ix, iy) of pixel (x, y). */
  function SampleIndex(rate: int, sampleW: int, x: int, y: int, ix: int, iy: int): int
  {
    4 * (y * rate * sampleW + x * rate * rate + (ix + iy * rate))
  }

  /** resolve's `real_index`: the first byte of pixel (x, y)'s block. */
  function BlockBase(rate: int, sampleW: int, x: int, y: int): int
  {
    4 * (y * rate * sampleW + x * rate * rate)
  }

  /** resolve's `sindex`: the offset of cell (ix, iy) inside a block. */
  function CellOffset(rate: int, ix: int, iy: int): int
  {
    4 * (ix + iy * rate)
  }

  /** fill_pixel's and resolve's byte offset of pixel (x, y) in the target. */
  function PixelIndex(w: int, x: int, y: int): int
  {
    4 * (x + y * w)
  }

  /** resolve reads each cell where fill_sample writes it. */
  lemma ResolveReadsFilledCell(rate: int, sampleW: int, x: int, y: int, ix: int, iy: int)
    ensures BlockBase(rate, sampleW, x, y) + CellOffset(rate, ix, iy)
         == SampleIndex(rate, sampleW, x, y, ix, iy)
  {
  }

  lemma MulNonneg(k: int, m: int)
    ensures k >= 0 && m >= 0 ==> k * m >= 0
  {
  }

  lemma MulAtLeast(k: int, m: int)
    ensures k >= 1 && m >= 0 ==> k * m >= m
  {
    MulNonneg(k - 1, m);
    assert k * m == (k - 1) * m + m;
  }

  lemma SubMul(a: int, b: int, m: int)
    ensures a * m - b * m == (a - b) * m
  {
  }

  /** q * m + s with 0 <= s < m determines q and s. */
  lemma MixedRadix(q1: int, s1: int, q2: int, s2: int, m: int)
    requires 0 <= s1 < m && 0 <= s2 < m
    requires q1 * m + s1 == q2 * m + s2
    ensures q1 == q2 && s1 == s2
  {
    MulAtLeast(q2 - q1, m);
    MulAtLeast(q1 - q2, m);
    SubMul(q2, q1, m);
    SubMul(q1, q2, m);
  }

  /** With mixed radix q * m + s, q < n and s < m the value is below n * m. */
  lemma MixedRadixBound(q: int, s: int, m: int, n: int)
    requires 0 <= q < n && 0 <= s < m
    ensures 0 <= q * m + s < n * m
  {
    MulNonneg(q, m);
    MulAtLeast(n - q, m);
    SubMul(n, q, m);
  }

  /** The cell offset as two mixed-radix digits: pixel, then cell. */
  lemma SampleIndexDigits(w: nat, rate: nat, x: int, y: int, ix: int, iy: int)
    ensures SampleIndex(rate, w * rate, x, y, ix, iy)
         == 4 * ((y * w + x) * (rate * rate) + (iy * rate + ix))
  {
    assert y * rate * (w * rate) == (y * w) * (rate * rate);
    assert x * rate * rate == x * (rate * rate);
    assert (y * w) * (rate * rate) + x * (rate * rate) == (y * w + x) * (rate * rate);
  }

  /** Every cell of every pixel of a w x h target lies inside a sample buffer
      of 4 * (w * rate) * (h * rate) bytes. */
  lemma SampleIndexInBounds(w: nat, h: nat, rate: nat, x: int, y: int, ix: int, iy: int)
    requires 0 <= x < w && 0 <= y < h && 0 <= ix < rate && 0 <= iy < rate
    ensures 0 <= SampleIndex(rate, w * rate, x, y, ix, iy)
    ensures SampleIndex(rate, w * rate, x, y, ix, iy) + 3 < 4 * (w * rate) * (h * rate)
  {
    SampleIndexDigits(w, rate, x, y, ix, iy);
    var p, c, cells := y * w + x, iy * rate + ix, rate * rate;
    MixedRadixBound(iy, ix, rate, rate);
    MixedRadixBound(y, x, w, h);
    MixedRadixBound(p, c, cells, h * w);
    BufferSize(w, h, rate);
  }

  lemma BufferSize(w: nat, h: nat, rate: nat)
    ensures 4 * (w * rate) * (h * rate) == 4 * ((h * w) * (rate * rate))
  {
    assert (w * rate) * (h * rate) == w * (rate * (h * rate));
    assert rate * (h * rate) == h * (rate * rate);
    assert w * (h * (rate * rate)) == (w * h) * (rate * rate);
  }

  /** Distinct (x, y, ix, iy) own disjoint 4-byte groups. */
  lemma SampleIndexInjective(w: nat, rate: nat, x1: int, y1: int, ix1: int, iy1: int, c1: int,
                             x2: int, y2: int, ix2: int, iy2: int, c2: int)
    requires 0 <= x1 < w && 0 <= y1 && 0 <= ix1 < rate && 0 <= iy1 < rate && 0 <= c1 < 4
    requires 0 <= x2 < w && 0 <= y2 && 0 <= ix2 < rate && 0 <= iy2 < rate && 0 <= c2 < 4
    requires SampleIndex(rate, w * rate, x1, y1, ix1, iy1) + c1
          == SampleIndex(rate, w * rate, x2, y2, ix2, iy2) + c2
    ensures x1 == x2 && y1 == y2 && ix1 == ix2 && iy1 == iy2 && c1 == c2
  {
    SampleIndexDigits(w, rate, x1, y1, ix1, iy1);
    SampleIndexDigits(w, rate, x2, y2, ix2, iy2);
    var p1, p2 := y1 * w + x1, y2 * w + x2;
    var s1, s2 := iy1 * rate + ix1, iy2 * rate + ix2;
    MixedRadixBound(iy1, ix1, rate, rate);
    MixedRadixBound(iy2, ix2, rate, rate);
    MixedRadix(p1 * (rate * rate) + s1, c1, p2 * (rate * rate) + s2, c2, 4);
    MixedRadix(p1, s1, p2, s2, rate * rate);
    MixedRadix(y1, x1, y2, x2, w);
    MixedRadix(iy1, ix1, iy2, ix2, rate);
  }

  /** Pixel bytes of a w x h target lie inside its 4 * w * h bytes. */
  lemma PixelIndexInBounds(w: nat, h: nat, x: int, y: int)
    requires 0 <= x < w && 0 <= y < h
    ensures 0 <= PixelIndex(w, x, y) && PixelIndex(w, x, y) + 3 < 4 * w * h
  {
    MixedRadixBound(y, x, w, h);
  }

  /** Distinct pixels own disjoint 4-byte groups. */
  lemma PixelIndexInjective(w: nat, x1: int, y1: int, c1: int, x2: int, y2: int, c2: int)
    requires 0 <= x1 < w && 0 <= y1 && 0 <= c1 < 4 && 0 <= x2 < w && 0 <= y2 && 0 <= c2 < 4
    requires PixelIndex(w, x1, y1) + c1 == PixelIndex(w, x2, y2) + c2
    ensures x1 == x2 && y1 == y2 && c1 == c2
  {
    MixedRadix(x1 + y1 * w, c1, x2 + y2 * w, c2, 4);
    MixedRadix(y1, x1, y2, x2, w);
  }

  /** Every byte of a w x h target belongs to some pixel. */
  lemma PixelCover(w: nat, h: nat, i: int)
    requires 0 <= i < 4 * w * h
    ensures w > 0
    ensures var p := i / 4;
      0 <= p % w < w && 0 <= p / w < h && PixelIndex(w, p % w, p / w) + i % 4 == i
  {
    var p := i / 4;
    assert 4 * w * h == 4 * (w * h);
    assert p < w * h;
    assert w != 0;
    assert p == (p / w) * w + p % w;
    MulNonneg(p / w - h, w);
    SubMul(p / w, h, w);
    assert h * w == w * h;
  }
}
