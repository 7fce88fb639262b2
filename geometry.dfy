/** Plane geometry shared by the renderer and the viewport: points, the 3x3
    matrices that act on them in homogeneous coordinates, and the rounding
    helpers the rasterizers use. Coordinates are exact reals. */
module Geometry {

  datatype Vec2 = Vec2(x: real, y: real)

  /** A row-major 3x3 matrix. */
  datatype Matrix = Matrix(m00: real, m01: real, m02: real,
                           m10: real, m11: real, m12: real,
                           m20: real, m21: real, m22: real)

  const Identity: Matrix := Matrix(1.0, 0.0, 0.0, 0.0, 1.0, 0.0, 0.0, 0.0, 1.0)

  /** The matrix product a * b. */
  function Mul(a: Matrix, b: Matrix): Matrix
  {
    Matrix(a.m00 * b.m00 + a.m01 * b.m10 + a.m02 * b.m20,
           a.m00 * b.m01 + a.m01 * b.m11 + a.m02 * b.m21,
           a.m00 * b.m02 + a.m01 * b.m12 + a.m02 * b.m22,
           a.m10 * b.m00 + a.m11 * b.m10 + a.m12 * b.m20,
           a.m10 * b.m01 + a.m11 * b.m11 + a.m12 * b.m21,
           a.m10 * b.m02 + a.m11 * b.m12 + a.m12 * b.m22,
           a.m20 * b.m00 + a.m21 * b.m10 + a.m22 * b.m20,
           a.m20 * b.m01 + a.m21 * b.m11 + a.m22 * b.m21,
           a.m20 * b.m02 + a.m21 * b.m12 + a.m22 * b.m22)
  }

  /** The last row of an affine matrix is (0, 0, 1). */
  predicate Affine(m: Matrix)
  {
    m.m20 == 0.0 && m.m21 == 0.0 && m.m22 == 1.0
  }

  /** The image of p, taken as (p.x, p.y, 1), under the affine part of m. */
  function Apply(m: Matrix, p: Vec2): Vec2
  {
    Vec2(m.m00 * p.x + m.m01 * p.y + m.m02, m.m10 * p.x + m.m11 * p.y + m.m12)
  }

  function Floor(v: real): int
  {
    v.Floor
  }

  function Ceil(v: real): int
  {
    -((-v).Floor)
  }

  function Abs(v: real): real
  {
    if v < 0.0 then -v else v
  }

  function Min(a: real, b: real): real
  {
    if a <= b then a else b
  }

  function Max(a: real, b: real): real
  {
    if a >= b then a else b
  }

  /** The source's `minimum(A, B, C)` macro: min(A, min(B, C)). */
  function Min3(a: real, b: real, c: real): real
  {
    Min(a, Min(b, c))
  }

  /** The source's `maximum(A, B, C)` macro: max(A, max(B, C)). */
  function Max3(a: real, b: real, c: real): real
  {
    Max(a, Max(b, c))
  }
}
