/** The two buffers the rasterizers write and the effect of a list of
    rasterization calls on them. Points and lines are drawn straight into
    the render target; triangles are drawn into the sample buffer. */
module Commands {
  import opened Geometry
  import opened Colors
  import opened Bytes
  import opened Svg
  import opened Emission
  import opened Raster
  import opened Coverage

  datatype Buffers = Buffers(target: seq<byte>, samples: seq<byte>)

  /** A call whose writes all land inside the buffers. */
  ghost predicate CmdSafe(cfg: Config, n: int, cmd: Cmd)
  {
    cmd.TriangleCmd? ==> TriangleSafe(cfg, n, cmd.tri)
  }

  ghost predicate AllSafe(cfg: Config, n: int, cmds: seq<Cmd>)
  {
    forall k :: 0 <= k < |cmds| ==> CmdSafe(cfg, n, cmds[k])
  }

  /** A list of calls is safe exactly when both of its parts are. */
  lemma AllSafeAppend(cfg: Config, n: int, xs: seq<Cmd>, ys: seq<Cmd>)
    ensures AllSafe(cfg, n, xs + ys) <==> AllSafe(cfg, n, xs) && AllSafe(cfg, n, ys)
  {
    if AllSafe(cfg, n, xs + ys) {
      forall k | 0 <= k < |xs|
        ensures CmdSafe(cfg, n, xs[k])
      {
        assert xs[k] == (xs + ys)[k];
      }
      forall k | 0 <= k < |ys|
        ensures CmdSafe(cfg, n, ys[k])
      {
        assert ys[k] == (xs + ys)[|xs| + k];
      }
    }
  }

  /** One rasterize_point, rasterize_line or rasterize_triangle call. Only
      triangles touch the sample buffer, and they leave the target alone. */
  function RunCmd(cfg: Config, b: Buffers, cmd: Cmd): (r: Buffers)
    requires |b.target| == 4 * cfg.w * cfg.h
    ensures |r.target| == |b.target| && |r.samples| == |b.samples|
    ensures cmd.TriangleCmd? ==> r.target == b.target
    ensures !cmd.TriangleCmd? ==> r.samples == b.samples
  {
    match cmd
    case PointCmd(p, c) => b.(target := PointEffect(cfg, b.target, p.x, p.y, c))
    case LineCmd(p0, p1, c) => b.(target := LineEffect(cfg, b.target, p0.x, p0.y, p1.x, p1.y, c))
    case TriangleCmd(t, c) => b.(samples := TriangleEffect(cfg, b.samples, c, t))
  }

  /** A list of calls, in order. */
  function RunCmds(cfg: Config, b: Buffers, cmds: seq<Cmd>): (r: Buffers)
    requires |b.target| == 4 * cfg.w * cfg.h
    ensures |r.target| == |b.target| && |r.samples| == |b.samples|
  {
    if cmds == [] then b
    else RunCmd(cfg, RunCmds(cfg, b, cmds[..|cmds| - 1]), cmds[|cmds| - 1])
  }

  /** One more call at the end of a list. */
  lemma RunCmdsSnoc(cfg: Config, b: Buffers, cmds: seq<Cmd>, cmd: Cmd)
    requires |b.target| == 4 * cfg.w * cfg.h
    ensures RunCmds(cfg, b, cmds + [cmd]) == RunCmd(cfg, RunCmds(cfg, b, cmds), cmd)
  {
    assert (cmds + [cmd])[..|cmds|] == cmds;
  }

  /** A call made on the result of a list extends the list by that call. */
  lemma RunCmdsStep(cfg: Config, b0: Buffers, cmds: seq<Cmd>, cmd: Cmd, before: Buffers, after: Buffers)
    requires |b0.target| == 4 * cfg.w * cfg.h
    requires before == RunCmds(cfg, b0, cmds)
    requires after == RunCmd(cfg, before, cmd)
    ensures after == RunCmds(cfg, b0, cmds + [cmd])
  {
    RunCmdsSnoc(cfg, b0, cmds, cmd);
  }

  /** Every triangle of a safe run is safe. */
  lemma TriangleRunSafe(cfg: Config, n: int, m: Matrix, corners: seq<Vec2>, c: Color, k: nat, j: nat)
    requires 3 * k <= |corners| && j < k
    requires AllSafe(cfg, n, TriangleRun(m, corners, c, k))
    ensures TriangleSafe(cfg, n, Triangle(Apply(m, corners[3 * j]), Apply(m, corners[3 * j + 1]), Apply(m, corners[3 * j + 2])))
  {
    TriangleRunAt(m, corners, c, k, j);
    assert CmdSafe(cfg, n, TriangleRun(m, corners, c, k)[j]);
  }

  /** In a safe list of elements, every element's calls are safe. */
  lemma EmitAllSafeAt(cfg: Config, n: int, tri: Triangulator, top: Matrix, es: seq<Element>, i: nat)
    requires i < |es| && AllSafe(cfg, n, EmitAll(tri, top, es))
    ensures AllSafe(cfg, n, Emit(tri, top, es[i]))
  {
    assert es == es[..i + 1] + es[i + 1..];
    EmitAllAppend(tri, top, es[..i + 1], es[i + 1..]);
    EmitAllPrefix(tri, top, es, i);
    AllSafeAppend(cfg, n, EmitAll(tri, top, es[..i + 1]), EmitAll(tri, top, es[i + 1..]));
    AllSafeAppend(cfg, n, EmitAll(tri, top, es[..i]), Emit(tri, top, es[i]));
  }

  /** Drawing element i after the first i is drawing the first i + 1. */
  lemma EmitStep(cfg: Config, b0: Buffers, tri: Triangulator, top: Matrix, es: seq<Element>, i: nat,
                 before: Buffers, after: Buffers)
    requires |b0.target| == 4 * cfg.w * cfg.h && i < |es|
    requires before == RunCmds(cfg, b0, EmitAll(tri, top, es[..i]))
    requires after == RunCmds(cfg, before, Emit(tri, top, es[i]))
    ensures after == RunCmds(cfg, b0, EmitAll(tri, top, es[..i + 1]))
  {
    EmitAllPrefix(tri, top, es, i);
    RunCmdsAppend(cfg, b0, EmitAll(tri, top, es[..i]), Emit(tri, top, es[i]));
  }

  /** Running two lists one after the other is running their concatenation. */
  lemma {:induction false} RunCmdsAppend(cfg: Config, b: Buffers, xs: seq<Cmd>, ys: seq<Cmd>)
    requires |b.target| == 4 * cfg.w * cfg.h
    ensures RunCmds(cfg, b, xs + ys) == RunCmds(cfg, RunCmds(cfg, b, xs), ys)
    decreases |ys|
  {
    if ys == [] {
      assert xs + ys == xs;
    } else {
      var zs := ys[..|ys| - 1];
      assert (xs + ys)[..|xs + ys| - 1] == xs + zs;
      RunCmdsAppend(cfg, b, xs, zs);
    }
  }

  /** A list without triangles leaves the sample buffer as it was. */
  lemma {:induction false} NoTrianglesKeepSamples(cfg: Config, b: Buffers, cmds: seq<Cmd>)
    requires |b.target| == 4 * cfg.w * cfg.h
    requires forall k :: 0 <= k < |cmds| ==> !cmds[k].TriangleCmd?
    ensures RunCmds(cfg, b, cmds).samples == b.samples
  {
    if cmds != [] {
      NoTrianglesKeepSamples(cfg, b, cmds[..|cmds| - 1]);
    }
  }

  /** A list of triangles leaves the render target as it was. */
  lemma {:induction false} TrianglesKeepTarget(cfg: Config, b: Buffers, cmds: seq<Cmd>)
    requires |b.target| == 4 * cfg.w * cfg.h
    requires forall k :: 0 <= k < |cmds| ==> cmds[k].TriangleCmd?
    ensures RunCmds(cfg, b, cmds).target == b.target
  {
    if cmds != [] {
      TrianglesKeepTarget(cfg, b, cmds[..|cmds| - 1]);
    }
  }
}
