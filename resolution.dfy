/** resolve(): every pixel's block of supersamples is folded into one value
    with the byte-level RMS `blend` (and the mean for alpha), and that value
    is composited onto the render target. */
module Resolution {
  import opened Bytes
  import opened Layout

  /** Four channel values as the resolve loop holds them in `int`s. */
  datatype Rgba = Rgba(r: nat, g: nat, b: nat, a: nat)

  /** The four bytes at offset i. (The resolve loop only reads inside the
      buffer; outside it this is all zero.) */
  function Cell(buf: seq<byte>, i: int): Rgba
  {
    if 0 <= i && i + 4 <= |buf| then Rgba(buf[i] as nat, buf[i + 1] as nat, buf[i + 2] as nat, buf[i + 3] as nat)
    else Rgba(0, 0, 0, 0)
  }

  /** The running value of the loop: nothing read yet (`fill == false`) or
      the r, g, b, a read so far. */
  datatype Acc = Unset | Set(px: Rgba)

  /** One sample folded into the running value: the first one is taken as
      it is, later ones are RMS-blended on r, g, b and averaged on a. */
  function Step(acc: Acc, cell: Rgba): Acc
  {
    match acc
    case Unset => Set(cell)
    case Set(p) => Set(Rgba(Rms(cell.r, p.r), Rms(cell.g, p.g), Rms(cell.b, p.b), Mean(cell.a, p.a)))
  }

  /** The iy loop over samples (ix, 0) .. (ix, n - 1) of the block at base. */
  function AccIy(s: seq<byte>, base: int, rate: nat, ix: nat, n: nat, start: Acc): Acc
  {
    if n == 0 then start else Step(AccIy(s, base, rate, ix, n - 1, start), Cell(s, base + CellOffset(rate, ix, n - 1)))
  }

  /** The ix loop over sample columns 0 .. n - 1. */
  function AccIx(s: seq<byte>, base: int, rate: nat, n: nat): Acc
  {
    if n == 0 then Unset else AccIy(s, base, rate, n - 1, rate, AccIx(s, base, rate, n - 1))
  }

  /** The value the loops end with for the block at base. */
  function Downsample(s: seq<byte>, base: int, rate: nat): Acc
  {
    AccIx(s, base, rate, rate)
  }

  /** lo <= p <= hi channel by channel. */
  predicate Within(lo: Rgba, p: Rgba, hi: Rgba)
  {
    && lo.r <= p.r <= hi.r && lo.g <= p.g <= hi.g
    && lo.b <= p.b <= hi.b && lo.a <= p.a <= hi.a
  }

  /** Every sample of the block at base lies between lo and hi. */
  predicate BlockWithin(s: seq<byte>, base: int, rate: nat, lo: Rgba, hi: Rgba)
  {
    forall ix, iy :: 0 <= ix < rate && 0 <= iy < rate ==> Within(lo, Cell(s, base + CellOffset(rate, ix, iy)), hi)
  }

  predicate AccWithin(acc: Acc, lo: Rgba, hi: Rgba)
  {
    acc.Set? ==> Within(lo, acc.px, hi)
  }

  /** Folding a sample inside the bounds into a value inside them stays
      inside them. */
  lemma StepWithin(acc: Acc, cell: Rgba, lo: Rgba, hi: Rgba)
    requires AccWithin(acc, lo, hi) && Within(lo, cell, hi)
    ensures Step(acc, cell).Set? && AccWithin(Step(acc, cell), lo, hi)
  {
    if acc.Set? {
      var p := acc.px;
      RmsBetween(cell.r, p.r);
      RmsBetween(cell.g, p.g);
      RmsBetween(cell.b, p.b);
      MeanBetween(cell.a, p.a);
    }
  }

  lemma {:induction false} AccIyWithin(s: seq<byte>, base: int, rate: nat, ix: nat, n: nat, start: Acc, lo: Rgba, hi: Rgba)
    requires BlockWithin(s, base, rate, lo, hi) && ix < rate && n <= rate && AccWithin(start, lo, hi)
    ensures AccWithin(AccIy(s, base, rate, ix, n, start), lo, hi)
    ensures n > 0 || start.Set? ==> AccIy(s, base, rate, ix, n, start).Set?
  {
    if n > 0 {
      AccIyWithin(s, base, rate, ix, n - 1, start, lo, hi);
      StepWithin(AccIy(s, base, rate, ix, n - 1, start), Cell(s, base + CellOffset(rate, ix, n - 1)), lo, hi);
    }
  }

  lemma {:induction false} AccIxWithin(s: seq<byte>, base: int, rate: nat, n: nat, lo: Rgba, hi: Rgba)
    requires BlockWithin(s, base, rate, lo, hi) && n <= rate
    ensures AccWithin(AccIx(s, base, rate, n), lo, hi)
    ensures n > 0 ==> AccIx(s, base, rate, n).Set?
  {
    if n > 0 {
      AccIxWithin(s, base, rate, n - 1, lo, hi);
      AccIyWithin(s, base, rate, n - 1, rate, AccIx(s, base, rate, n - 1), lo, hi);
    }
  }

  /** With at least one sample per pixel the loops always read something,
      and every channel of the result lies between the smallest and the
      largest value that channel takes in the block. */
  lemma DownsampleWithin(s: seq<byte>, base: int, rate: nat, lo: Rgba, hi: Rgba)
    requires rate >= 1 && BlockWithin(s, base, rate, lo, hi)
    ensures Downsample(s, base, rate).Set?
    ensures Within(lo, Downsample(s, base, rate).px, hi)
  {
    AccIxWithin(s, base, rate, rate, lo, hi);
  }

  /** A block whose samples all hold v resolves to v. */
  lemma DownsampleUniform(s: seq<byte>, base: int, rate: nat, v: Rgba)
    requires rate >= 1
    requires forall ix, iy :: 0 <= ix < rate && 0 <= iy < rate ==> Cell(s, base + CellOffset(rate, ix, iy)) == v
    ensures Downsample(s, base, rate) == Set(v)
  {
    DownsampleWithin(s, base, rate, v, v);
  }

  /** Byte values lie in [0, 255]. */
  lemma CellIsBytes(buf: seq<byte>, i: int)
    ensures Within(Rgba(0, 0, 0, 0), Cell(buf, i), Rgba(255, 255, 255, 255))
  {
  }

  /** The write-back: onto a pixel with a saturated colour channel the
      downsampled value is copied; a downsampled value that is not pure
      white is RMS-blended (alpha too) with the pixel; otherwise the pixel
      stays. */
  function Composite(prev: Rgba, d: Rgba): Rgba
  {
    if prev.r == 255 || prev.g == 255 || prev.b == 255 then d
    else if d.r != 255 || d.g != 255 || d.b != 255 then
      Rgba(Rms(prev.r, d.r), Rms(prev.g, d.g), Rms(prev.b, d.b), Rms(prev.a, d.a))
    else prev
  }

  /** Compositing keeps every channel between the pixel's and the
      downsampled value's bounds. */
  lemma CompositeWithin(prev: Rgba, d: Rgba, lo: Rgba, hi: Rgba)
    requires Within(lo, prev, hi) && Within(lo, d, hi)
    ensures Within(lo, Composite(prev, d), hi)
  {
    RmsBetween(prev.r, d.r);
    RmsBetween(prev.g, d.g);
    RmsBetween(prev.b, d.b);
    RmsBetween(prev.a, d.a);
  }

  /** `(uint8_t)` of an int: the low eight bits. */
  function Wrap(v: int): byte
  {
    (v % 256) as byte
  }

  function ChannelOf(p: Rgba, k: int): nat
  {
    if k == 0 then p.r else if k == 1 then p.g else if k == 2 then p.b else p.a
  }

  /** The resolved value of pixel (x, y). */
  function ResolvedPixel(w: nat, rate: nat, t: seq<byte>, s: seq<byte>, x: int, y: int): Rgba
  {
    var d := Downsample(s, BlockBase(rate, w * rate, x, y), rate);
    Composite(Cell(t, PixelIndex(w, x, y)), if d.Set? then d.px else Rgba(0, 0, 0, 0))
  }

  /** The render target after resolve(), byte by byte. */
  function ResolveTarget(w: nat, rate: nat, t: seq<byte>, s: seq<byte>): (r: seq<byte>)
    ensures |r| == |t|
  {
    seq(|t|, i requires 0 <= i < |t| =>
      if w == 0 then t[i]
      else
        var p := i / 4;
        Wrap(ChannelOf(ResolvedPixel(w, rate, t, s, p % w, p / w), i % 4)))
  }

  /** q * m + s with 0 <= s < m has quotient q and remainder s. */
  lemma DivMod(q: int, s: int, m: int)
    requires 0 <= s < m
    ensures (q * m + s) / m == q && (q * m + s) % m == s
  {
    var n := q * m + s;
    assert n == (n / m) * m + n % m;
    MixedRadix(n / m, n % m, q, s, m);
  }

  /** Byte i of the target belongs to pixel ((i / 4) % w, (i / 4) / w),
      channel i % 4. */
  lemma PixelOfIndex(w: nat, x: int, y: int, k: int)
    requires 0 <= x < w && 0 <= y && 0 <= k < 4
    ensures var i := PixelIndex(w, x, y) + k;
      (i / 4) % w == x && (i / 4) / w == y && i % 4 == k
  {
    DivMod(x + y * w, k, 4);
    DivMod(y, x, w);
  }

  /** A resolved channel is a byte value, so the cast keeps it. */
  lemma ResolvedIsByte(w: nat, rate: nat, t: seq<byte>, s: seq<byte>, x: int, y: int, k: int)
    ensures ChannelOf(ResolvedPixel(w, rate, t, s, x, y), k) <= 255
    ensures Wrap(ChannelOf(ResolvedPixel(w, rate, t, s, x, y), k)) as int == ChannelOf(ResolvedPixel(w, rate, t, s, x, y), k)
  {
    var lo, hi := Rgba(0, 0, 0, 0), Rgba(255, 255, 255, 255);
    var base := BlockBase(rate, w * rate, x, y);
    forall ix, iy | 0 <= ix < rate && 0 <= iy < rate
      ensures Within(lo, Cell(s, base + CellOffset(rate, ix, iy)), hi)
    {
      CellIsBytes(s, base + CellOffset(rate, ix, iy));
    }
    CellIsBytes(t, PixelIndex(w, x, y));
    var d := Downsample(s, base, rate);
    if rate >= 1 {
      DownsampleWithin(s, base, rate, lo, hi);
    }
    CompositeWithin(Cell(t, PixelIndex(w, x, y)), if d.Set? then d.px else lo, lo, hi);
  }

  /** Byte k of pixel (x, y) of the resolved target is channel k of that
      pixel's resolved value, which never needs the low-eight-bits cut. */
  lemma ResolveAt(w: nat, h: nat, rate: nat, t: seq<byte>, s: seq<byte>, x: int, y: int, k: int)
    requires |t| == 4 * w * h && 0 <= x < w && 0 <= y < h && 0 <= k < 4
    ensures 0 <= PixelIndex(w, x, y) + k < |t|
    ensures ResolveTarget(w, rate, t, s)[PixelIndex(w, x, y) + k] as int == ChannelOf(ResolvedPixel(w, rate, t, s, x, y), k)
  {
    PixelIndexInBounds(w, h, x, y);
    PixelOfIndex(w, x, y, k);
    ResolvedIsByte(w, rate, t, s, x, y, k);
  }

  /** The loop's `fill` flag and its four ints as a running value. */
  function AccOf(fill: bool, r: nat, g: nat, b: nat, a: nat): Acc
  {
    if fill then Set(Rgba(r, g, b, a)) else Unset
  }

  /** The four byte stores of resolve's write-back at offset i. */
  function StorePixel(t: seq<byte>, i: int, p: Rgba): (r: seq<byte>)
    requires 0 <= i && i + 4 <= |t|
    ensures |r| == |t|
    ensures forall j :: 0 <= j < |t| ==> r[j] == if i <= j < i + 4 then Wrap(ChannelOf(p, j - i)) else t[j]
  {
    t[i := Wrap(p.r)][i + 1 := Wrap(p.g)][i + 2 := Wrap(p.b)][i + 3 := Wrap(p.a)]
  }

  /** Byte i belongs to a pixel that resolve's column-major walk has
      finished before it reaches pixel (x, y). */
  predicate Resolved(w: nat, x: int, y: int, i: int)
  {
    w > 0 && var p := i / 4; p % w < x || (p % w == x && p / w < y)
  }

  /** A byte of pixel (x, y) is not resolved before (x, y) is reached. */
  lemma OwnPixelPending(w: nat, h: nat, x: int, y: int, k: int)
    requires 0 <= x < w && 0 <= y < h && 0 <= k < 4
    ensures !Resolved(w, x, y, PixelIndex(w, x, y) + k)
  {
    PixelOfIndex(w, x, y, k);
  }

  /** goal holds every pixel's resolved value in that pixel's four bytes. */
  ghost predicate GoalHolds(w: nat, h: nat, rate: nat, t0: seq<byte>, s: seq<byte>, goal: seq<byte>)
  {
    && |goal| == |t0| == 4 * w * h
    && forall x, y, k :: 0 <= x < w && 0 <= y < h && 0 <= k < 4 ==>
      0 <= PixelIndex(w, x, y) + k < |goal| && goal[PixelIndex(w, x, y) + k] == PixelByte(w, rate, t0, s, x, y, k)
  }

  /** Byte k of pixel (x, y)'s resolved value. */
  function PixelByte(w: nat, rate: nat, t0: seq<byte>, s: seq<byte>, x: int, y: int, k: int): byte
  {
    Wrap(ChannelOf(ResolvedPixel(w, rate, t0, s, x, y), k))
  }

  /** The resolved target is such a goal, and the only one. */
  lemma ResolveTargetHolds(w: nat, h: nat, rate: nat, t0: seq<byte>, s: seq<byte>)
    requires |t0| == 4 * w * h
    ensures GoalHolds(w, h, rate, t0, s, ResolveTarget(w, rate, t0, s))
  {
    var g := ResolveTarget(w, rate, t0, s);
    forall x, y, k | 0 <= x < w && 0 <= y < h && 0 <= k < 4
      ensures 0 <= PixelIndex(w, x, y) + k < |g| && g[PixelIndex(w, x, y) + k] == PixelByte(w, rate, t0, s, x, y, k)
    {
      ResolveAt(w, h, rate, t0, s, x, y, k);
      ResolvedIsByte(w, rate, t0, s, x, y, k);
    }
  }

  /** Some goal exists: the resolved target. */
  lemma ResolvedGoal(w: nat, h: nat, rate: nat, t0: seq<byte>, s: seq<byte>) returns (goal: seq<byte>)
    requires |t0| == 4 * w * h
    ensures GoalHolds(w, h, rate, t0, s, goal)
  {
    goal := ResolveTarget(w, rate, t0, s);
    ResolveTargetHolds(w, h, rate, t0, s);
  }

  /** Two goals agree byte by byte. */
  lemma GoalsAgree(w: nat, h: nat, rate: nat, t0: seq<byte>, s: seq<byte>, g1: seq<byte>, g2: seq<byte>, i: int)
    requires GoalHolds(w, h, rate, t0, s, g1) && GoalHolds(w, h, rate, t0, s, g2) && 0 <= i < |g1|
    ensures g1[i] == g2[i]
  {
    PixelCover(w, h, i);
    var p := i / 4;
    assert g1[PixelIndex(w, p % w, p / w) + i % 4] == PixelByte(w, rate, t0, s, p % w, p / w, i % 4);
    assert g2[PixelIndex(w, p % w, p / w) + i % 4] == PixelByte(w, rate, t0, s, p % w, p / w, i % 4);
  }

  lemma GoalUnique(w: nat, h: nat, rate: nat, t0: seq<byte>, s: seq<byte>, goal: seq<byte>)
    requires GoalHolds(w, h, rate, t0, s, goal)
    ensures goal == ResolveTarget(w, rate, t0, s)
  {
    var target := ResolveTarget(w, rate, t0, s);
    ResolveTargetHolds(w, h, rate, t0, s);
    forall i | 0 <= i < |goal|
      ensures goal[i] == target[i]
    {
      GoalsAgree(w, h, rate, t0, s, goal, target, i);
    }
  }

  /** The four bytes of pixel (x, y) of such a goal. */
  lemma GoalAt(w: nat, h: nat, rate: nat, t0: seq<byte>, s: seq<byte>, goal: seq<byte>, x: int, y: int)
    requires GoalHolds(w, h, rate, t0, s, goal) && 0 <= x < w && 0 <= y < h
    ensures forall i :: 0 <= i < |t0| && PixelIndex(w, x, y) <= i < PixelIndex(w, x, y) + 4 ==>
      goal[i] == PixelByte(w, rate, t0, s, x, y, i - PixelIndex(w, x, y))
  {
    forall i | 0 <= i < |t0| && PixelIndex(w, x, y) <= i < PixelIndex(w, x, y) + 4
      ensures goal[i] == PixelByte(w, rate, t0, s, x, y, i - PixelIndex(w, x, y))
    {
      var k := i - PixelIndex(w, x, y);
      assert goal[PixelIndex(w, x, y) + k] == PixelByte(w, rate, t0, s, x, y, k);
    }
  }

  /** Byte i after pixel (x, y)'s write-back of px. */
  lemma ResolveStepAt(w: nat, h: nat, t0: seq<byte>, goal: seq<byte>, cur: seq<byte>, x: int, y: int, px: Rgba, i: int)
    requires |t0| == 4 * w * h && |cur| == |t0| && |goal| == |t0| && 0 <= x < w && 0 <= y < h && 0 <= i < |t0|
    requires 0 <= PixelIndex(w, x, y) && PixelIndex(w, x, y) + 4 <= |cur|
    requires PixelIndex(w, x, y) <= i < PixelIndex(w, x, y) + 4 ==> goal[i] == Wrap(ChannelOf(px, i - PixelIndex(w, x, y)))
    requires cur[i] == if Resolved(w, x, y, i) then goal[i] else t0[i]
    ensures StorePixel(cur, PixelIndex(w, x, y), px)[i] == if Resolved(w, x, y + 1, i) then goal[i] else t0[i]
  {
    var pi := PixelIndex(w, x, y);
    PixelCover(w, h, i);
    var p := i / 4;
    if p % w == x && p / w == y {
    } else if pi <= i < pi + 4 {
      PixelOfIndex(w, x, y, i - pi);
    }
  }

  /** Resolving pixel (x, y) of a target whose earlier pixels are resolved
      and whose later ones are untouched resolves one more pixel: it reads
      the pixel's original value, and its four stores land exactly on the
      bytes of (x, y). */
  lemma ResolveStep(w: nat, h: nat, t0: seq<byte>, goal: seq<byte>, cur: seq<byte>, x: int, y: int, px: Rgba)
    requires |t0| == 4 * w * h && |cur| == |t0| && |goal| == |t0| && 0 <= x < w && 0 <= y < h
    requires forall i :: 0 <= i < |t0| && PixelIndex(w, x, y) <= i < PixelIndex(w, x, y) + 4 ==>
      goal[i] == Wrap(ChannelOf(px, i - PixelIndex(w, x, y)))
    requires forall i :: 0 <= i < |t0| ==> cur[i] == if Resolved(w, x, y, i) then goal[i] else t0[i]
    ensures 0 <= PixelIndex(w, x, y) && PixelIndex(w, x, y) + 4 <= |cur|
    ensures Cell(cur, PixelIndex(w, x, y)) == Cell(t0, PixelIndex(w, x, y))
    ensures var next := StorePixel(cur, PixelIndex(w, x, y), px);
      forall i :: 0 <= i < |t0| ==> next[i] == if Resolved(w, x, y + 1, i) then goal[i] else t0[i]
  {
    var pi := PixelIndex(w, x, y);
    PixelIndexInBounds(w, h, x, y);
    OwnPixelPending(w, h, x, y, 0);
    OwnPixelPending(w, h, x, y, 1);
    OwnPixelPending(w, h, x, y, 2);
    OwnPixelPending(w, h, x, y, 3);
    forall i | 0 <= i < |t0|
      ensures StorePixel(cur, pi, px)[i] == if Resolved(w, x, y + 1, i) then goal[i] else t0[i]
    {
      ResolveStepAt(w, h, t0, goal, cur, x, y, px, i);
    }
  }

  /** Finishing column x of the walk is starting column x + 1. */
  lemma ColumnDone(w: nat, h: nat, x: int, i: int)
    requires 0 <= i < 4 * w * h
    ensures Resolved(w, x, h, i) == Resolved(w, x + 1, 0, i)
  {
    PixelCover(w, h, i);
  }

  /** After the last column every byte is resolved. */
  lemma AllResolved(w: nat, h: nat, i: int)
    requires 0 <= i < 4 * w * h
    ensures Resolved(w, w, 0, i)
  {
    PixelCover(w, h, i);
  }

  /** Each resolved channel lies between the bounds of the pixel's old
      value and of its block of samples. */
  lemma ResolveBounds(w: nat, rate: nat, t: seq<byte>, s: seq<byte>, x: int, y: int, lo: Rgba, hi: Rgba)
    requires rate >= 1
    requires Within(lo, Cell(t, PixelIndex(w, x, y)), hi)
    requires BlockWithin(s, BlockBase(rate, w * rate, x, y), rate, lo, hi)
    ensures Within(lo, ResolvedPixel(w, rate, t, s, x, y), hi)
  {
    var base := BlockBase(rate, w * rate, x, y);
    DownsampleWithin(s, base, rate, lo, hi);
    CompositeWithin(Cell(t, PixelIndex(w, x, y)), Downsample(s, base, rate).px, lo, hi);
  }

  /** On a pixel with a saturated channel (a white canvas, say) a block of
      identical samples v resolves to exactly v. */
  lemma ResolveUniform(w: nat, rate: nat, t: seq<byte>, s: seq<byte>, x: int, y: int, v: Rgba)
    requires rate >= 1
    requires var prev := Cell(t, PixelIndex(w, x, y)); prev.r == 255 || prev.g == 255 || prev.b == 255
    requires forall ix, iy :: 0 <= ix < rate && 0 <= iy < rate ==>
      Cell(s, BlockBase(rate, w * rate, x, y) + CellOffset(rate, ix, iy)) == v
    ensures ResolvedPixel(w, rate, t, s, x, y) == v
  {
    DownsampleUniform(s, BlockBase(rate, w * rate, x, y), rate, v);
  }

  /** Where a block of samples is pure white in colour, a pixel without a
      saturated channel keeps its value. */
  lemma ResolveSkipsWhite(w: nat, rate: nat, t: seq<byte>, s: seq<byte>, x: int, y: int, alpha: nat)
    requires rate >= 1 && alpha <= 255
    requires var prev := Cell(t, PixelIndex(w, x, y)); prev.r != 255 && prev.g != 255 && prev.b != 255
    requires forall ix, iy :: 0 <= ix < rate && 0 <= iy < rate ==>
      Cell(s, BlockBase(rate, w * rate, x, y) + CellOffset(rate, ix, iy)) == Rgba(255, 255, 255, alpha)
    ensures ResolvedPixel(w, rate, t, s, x, y) == Cell(t, PixelIndex(w, x, y))
  {
    DownsampleUniform(s, BlockBase(rate, w * rate, x, y), rate, Rgba(255, 255, 255, alpha));
  }
}
