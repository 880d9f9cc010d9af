/** Points and the matrix algebra behind `Object._transform` and `Object.move`
    (models/object.py): a 2x2 linear part, its homogeneous 3x3 embedding, the
    composition translate(-pivot) . linear . translate(+pivot), and the action of a
    3x3 matrix on a point written as the row vector (x, y, 1). */
module Geometry {

  /** A 2D point; coordinates are exact reals. */
  datatype Point = Point(x: real, y: real)

  function Add(p: Point, q: Point): Point { Point(p.x + q.x, p.y + q.y) }

  function Sub(p: Point, q: Point): Point { Point(p.x - q.x, p.y - q.y) }

  /** The 2x2 matrix [[a, b], [c, d]], given row by row as in the source. */
  datatype Matrix2 = Matrix2(a: real, b: real, c: real, d: real)

  function Det(m: Matrix2): real { m.a * m.d - m.b * m.c }

  /** The row vector p times m: (x*a + y*c, x*b + y*d). */
  function RowTimes(p: Point, m: Matrix2): Point
  {
    Point(p.x * m.a + p.y * m.c, p.x * m.b + p.y * m.d)
  }

  /** diag(f, f): the matrix `zoom` passes to `_transform`. */
  function Scaling(f: real): Matrix2 { Matrix2(f, 0.0, 0.0, f) }

  /** The cosine and sine of a rotation angle; the trigonometry itself is not modelled. */
  datatype Rotation = Rotation(cos: real, sin: real)

  /** What cos and sin of one angle always satisfy. */
  predicate IsUnit(r: Rotation) { r.cos * r.cos + r.sin * r.sin == 1.0 }

  /** The rotation by the opposite angle: cos(-a) = cos a, sin(-a) = -sin a. */
  function Opposite(r: Rotation): Rotation { Rotation(r.cos, -r.sin) }

  /** [[cos a, -sin a], [sin a, cos a]]: the matrix `rotate` passes to `_transform`. */
  function RotationMatrix(r: Rotation): Matrix2
  {
    Matrix2(r.cos, -r.sin, r.sin, r.cos)
  }

  /** The meaning of `_transform(m, c)` on one point: p is taken relative to the
      pivot c, multiplied as a row vector by m, and moved back: (p - c) . m + c. */
  function TransformPoint(p: Point, m: Matrix2, c: Point): Point
  {
    Add(RowTimes(Sub(p, c), m), c)
  }

  /** A homogeneous 3x3 matrix, row by row. */
  datatype Matrix3 = Matrix3(
    m00: real, m01: real, m02: real,
    m10: real, m11: real, m12: real,
    m20: real, m21: real, m22: real)

  function Mul(p: Matrix3, q: Matrix3): Matrix3
  {
    Matrix3(
      p.m00 * q.m00 + p.m01 * q.m10 + p.m02 * q.m20,
      p.m00 * q.m01 + p.m01 * q.m11 + p.m02 * q.m21,
      p.m00 * q.m02 + p.m01 * q.m12 + p.m02 * q.m22,
      p.m10 * q.m00 + p.m11 * q.m10 + p.m12 * q.m20,
      p.m10 * q.m01 + p.m11 * q.m11 + p.m12 * q.m21,
      p.m10 * q.m02 + p.m11 * q.m12 + p.m12 * q.m22,
      p.m20 * q.m00 + p.m21 * q.m10 + p.m22 * q.m20,
      p.m20 * q.m01 + p.m21 * q.m11 + p.m22 * q.m21,
      p.m20 * q.m02 + p.m21 * q.m12 + p.m22 * q.m22)
  }

  /** Translation by (dx, dy) for row vectors: the offset sits in the last row. */
  function Translation(dx: real, dy: real): Matrix3
  {
    Matrix3(1.0, 0.0, 0.0, 0.0, 1.0, 0.0, dx, dy, 1.0)
  }

  /** m padded with a zero column and the row [0, 0, 1]. */
  function Embed(m: Matrix2): Matrix3
  {
    Matrix3(m.a, m.b, 0.0, m.c, m.d, 0.0, 0.0, 0.0, 1.0)
  }

  /** The operation matrix `_transform` builds (models/object.py:50-68). */
  function Composed(m: Matrix2, c: Point): Matrix3
  {
    Mul(Mul(Translation(-c.x, -c.y), Embed(m)), Translation(c.x, c.y))
  }

  /** (x, y, 1) . h with the homogeneous coordinate dropped (models/object.py:71-72). */
  function ApplyRow(p: Point, h: Matrix3): Point
  {
    Point(p.x * h.m00 + p.y * h.m10 + h.m20, p.x * h.m01 + p.y * h.m11 + h.m21)
  }

  lemma TranslationTimesEmbed(m: Matrix2, dx: real, dy: real)
    ensures Mul(Translation(dx, dy), Embed(m))
         == Matrix3(m.a, m.b, 0.0, m.c, m.d, 0.0, dx * m.a + dy * m.c, dx * m.b + dy * m.d, 1.0)
  {
  }

  lemma TimesTranslation(a: real, b: real, c: real, d: real, u: real, v: real, dx: real, dy: real)
    ensures Mul(Matrix3(a, b, 0.0, c, d, 0.0, u, v, 1.0), Translation(dx, dy))
         == Matrix3(a, b, 0.0, c, d, 0.0, u + dx, v + dy, 1.0)
  {
  }

  lemma Distribute(x: real, y: real, cx: real, cy: real, e: real, f: real)
    ensures x * e + y * f + (-cx * e - cy * f + cx) == (x - cx) * e + (y - cy) * f + cx
  {
    assert (x - cx) * e == x * e - cx * e;
    assert (y - cy) * f == y * f - cy * f;
  }

  /** The entries of the operation matrix: m in the upper left block, the net
      offset c - c . m in the last row. */
  lemma ComposedEntries(m: Matrix2, c: Point)
    ensures Composed(m, c)
         == Matrix3(m.a, m.b, 0.0, m.c, m.d, 0.0,
                    -c.x * m.a - c.y * m.c + c.x, -c.x * m.b - c.y * m.d + c.y, 1.0)
  {
    TranslationTimesEmbed(m, -c.x, -c.y);
    TimesTranslation(m.a, m.b, m.c, m.d, -c.x * m.a - c.y * m.c, -c.x * m.b - c.y * m.d, c.x, c.y);
  }

  lemma ApplyAffine(p: Point, m: Matrix2, c: Point, h: Matrix3)
    requires h == Matrix3(m.a, m.b, 0.0, m.c, m.d, 0.0,
                          -c.x * m.a - c.y * m.c + c.x, -c.x * m.b - c.y * m.d + c.y, 1.0)
    ensures ApplyRow(p, h) == TransformPoint(p, m, c)
  {
    Distribute(p.x, p.y, c.x, c.y, m.a, m.c);
    Distribute(p.x, p.y, c.x, c.y, m.b, m.d);
  }

  /** The composed homogeneous matrix moves every point exactly as the pivot
      formula says. */
  lemma ComposedIsPivotTransform(m: Matrix2, c: Point, p: Point)
    ensures ApplyRow(p, Composed(m, c)) == TransformPoint(p, m, c)
  {
    ComposedEntries(m, c);
    ApplyAffine(p, m, c, Composed(m, c));
  }

  /** Every point of s sent through the pivot transform, in the same order. */
  function Transformed(s: seq<Point>, m: Matrix2, c: Point): (r: seq<Point>)
    ensures |r| == |s|
    ensures forall i :: 0 <= i < |s| ==> r[i] == TransformPoint(s[i], m, c)
  {
    seq(|s|, i requires 0 <= i < |s| => TransformPoint(s[i], m, c))
  }

  /** Every point of s shifted by offset, in the same order (models/object.py:74-77). */
  function Moved(s: seq<Point>, offset: Point): (r: seq<Point>)
    ensures |r| == |s|
    ensures forall i :: 0 <= i < |s| ==> r[i] == Add(s[i], offset)
  {
    seq(|s|, i requires 0 <= i < |s| => Add(s[i], offset))
  }

  /** Scaling about a pivot by f moves each point to c + f (p - c). */
  lemma ScalingAboutPivot(p: Point, f: real, c: Point)
    ensures TransformPoint(p, Scaling(f), c) == Point(c.x + f * (p.x - c.x), c.y + f * (p.y - c.y))
  {
    var dx, dy := p.x - c.x, p.y - c.y;
    assert RowTimes(Sub(p, c), Scaling(f)) == Point(dx * f + dy * 0.0, dx * 0.0 + dy * f);
    assert dx * f + dy * 0.0 == f * dx;
    assert dx * 0.0 + dy * f == f * dy;
  }

  /** Rotation in row-vector form: x' = x cos + y sin, y' = y cos - x sin, about c. */
  lemma RotationAboutPivot(p: Point, r: Rotation, c: Point)
    ensures TransformPoint(p, RotationMatrix(r), c)
         == Point(c.x + (p.x - c.x) * r.cos + (p.y - c.y) * r.sin,
                  c.y + (p.y - c.y) * r.cos - (p.x - c.x) * r.sin)
  {
    var dx, dy := p.x - c.x, p.y - c.y;
    assert RowTimes(Sub(p, c), RotationMatrix(r)) == Point(dx * r.cos + dy * r.sin, dx * -r.sin + dy * r.cos);
    assert dx * -r.sin + dy * r.cos == dy * r.cos - dx * r.sin;
  }

  /** A pivot transform whose matrix has a non-zero determinant never sends two
      different points to the same place. */
  lemma TransformInjective(p: Point, q: Point, m: Matrix2, c: Point)
    requires Det(m) != 0.0
    requires TransformPoint(p, m, c) == TransformPoint(q, m, c)
    ensures p == q
  {
    var dx, dy := p.x - q.x, p.y - q.y;
    var u, v := Sub(p, c), Sub(q, c);
    assert RowTimes(u, m) == RowTimes(v, m);
    assert u.x - v.x == dx && u.y - v.y == dy;
    assert (u.x - v.x) * m.a + (u.y - v.y) * m.c == 0.0;
    assert (u.x - v.x) * m.b + (u.y - v.y) * m.d == 0.0;
    assert dx * m.a + dy * m.c == 0.0;
    assert dx * m.b + dy * m.d == 0.0;
    assert dx * Det(m) == m.d * (dx * m.a + dy * m.c) - m.c * (dx * m.b + dy * m.d);
    assert dy * Det(m) == m.a * (dx * m.b + dy * m.d) - m.b * (dx * m.a + dy * m.c);
  }

  /** Undoing a scaling: f, then 1/f, about the same pivot, is the identity. */
  lemma ScalingRoundTrip(p: Point, f: real, c: Point)
    requires f != 0.0
    ensures TransformPoint(TransformPoint(p, Scaling(f), c), Scaling(1.0 / f), c) == p
  {
    var q := TransformPoint(p, Scaling(f), c);
    assert q.x - c.x == f * (p.x - c.x);
    assert q.y - c.y == f * (p.y - c.y);
    assert (1.0 / f) * (f * (p.x - c.x)) == p.x - c.x;
    assert (1.0 / f) * (f * (p.y - c.y)) == p.y - c.y;
  }

  /** Undoing a rotation: the angle, then the opposite angle, about the same pivot,
      is the identity. */
  lemma RotationRoundTrip(p: Point, r: Rotation, c: Point)
    requires IsUnit(r)
    ensures TransformPoint(TransformPoint(p, RotationMatrix(r), c), RotationMatrix(Opposite(r)), c) == p
  {
    var dx, dy := p.x - c.x, p.y - c.y;
    var q := TransformPoint(p, RotationMatrix(r), c);
    assert q.x - c.x == dx * r.cos + dy * r.sin;
    assert q.y - c.y == dy * r.cos - dx * r.sin;
    calc {
      (dx * r.cos + dy * r.sin) * r.cos - (dy * r.cos - dx * r.sin) * r.sin;
      dx * (r.cos * r.cos + r.sin * r.sin);
      dx;
    }
    calc {
      (dx * r.cos + dy * r.sin) * r.sin + (dy * r.cos - dx * r.sin) * r.cos;
      dy * (r.cos * r.cos + r.sin * r.sin);
      dy;
    }
  }

  /** A rotation keeps every point at the same (squared) distance from the pivot. */
  lemma RotationKeepsDistance(p: Point, r: Rotation, c: Point)
    requires IsUnit(r)
    ensures
      var q := TransformPoint(p, RotationMatrix(r), c);
      (q.x - c.x) * (q.x - c.x) + (q.y - c.y) * (q.y - c.y)
      == (p.x - c.x) * (p.x - c.x) + (p.y - c.y) * (p.y - c.y)
  {
    var dx, dy := p.x - c.x, p.y - c.y;
    var q := TransformPoint(p, RotationMatrix(r), c);
    assert q.x - c.x == dx * r.cos + dy * r.sin;
    assert q.y - c.y == dy * r.cos - dx * r.sin;
    calc {
      (dx * r.cos + dy * r.sin) * (dx * r.cos + dy * r.sin) + (dy * r.cos - dx * r.sin) * (dy * r.cos - dx * r.sin);
      (dx * dx + dy * dy) * (r.cos * r.cos + r.sin * r.sin);
      dx * dx + dy * dy;
    }
  }

  /** The rotation matrix of any angle has determinant cos^2 + sin^2 = 1. */
  lemma RotationDet(r: Rotation)
    requires IsUnit(r)
    ensures Det(RotationMatrix(r)) == 1.0
  {
  }

  /** Moving by an offset never sends two different points to the same place. */
  lemma MoveInjective(p: Point, q: Point, offset: Point)
    requires Add(p, offset) == Add(q, offset)
    ensures p == q
  {
  }
}
