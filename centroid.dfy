/** The `center` property of models/object.py:40-44: the coordinate-wise average
    of the object's points taken as a SET, so that a repeated point (such as the
    closing point of a closed wireframe) is counted once. */
module Centroid {
  import opened Wrappers
  import opened Geometry

  predicate NoDuplicates(s: seq<Point>)
  {
    forall i, j :: 0 <= i < j < |s| ==> s[i] != s[j]
  }

  /** The distinct points of s, each at its first occurrence. */
  function Dedup(s: seq<Point>): (d: seq<Point>)
    ensures NoDuplicates(d)
    ensures forall p :: p in d <==> p in s
    ensures |d| <= |s|
    ensures |d| == 0 <==> |s| == 0
  {
    if s == [] then []
    else
      var d := Dedup(s[..|s| - 1]);
      var last := s[|s| - 1];
      assert forall p :: p in s <==> p in s[..|s| - 1] || p == last;
      if last in d then d else d + [last]
  }

  /** Coordinate-wise sum of the points of s. */
  function Sum(s: seq<Point>): Point
  {
    if s == [] then Point(0.0, 0.0) else Add(Sum(s[..|s| - 1]), s[|s| - 1])
  }

  /** n copies of p added together. */
  function Times(n: nat, p: Point): Point { Point(n as real * p.x, n as real * p.y) }

  /** The average of the distinct points of s; None for an object without points
      (numpy's average of nothing is not a number). */
  function Center(s: seq<Point>): Option<Point>
  {
    if s == [] then None else Some(Average(Dedup(s)))
  }

  /** The coordinate-wise arithmetic mean of d. */
  function Average(d: seq<Point>): Point
    requires d != []
  {
    Point(Sum(d).x / |d| as real, Sum(d).y / |d| as real)
  }

  /** Adding a point the object already has does not move its center: the closing
      point of a closed wireframe does not bias it. */
  lemma CenterIgnoresRepeatedPoint(s: seq<Point>, p: Point)
    requires p in s
    ensures Center(s + [p]) == Center(s)
  {
    assert (s + [p])[..|s|] == s;
  }

  /** Removing the point at index k from s takes exactly that point off the sum. */
  lemma {:induction false} SumWithout(s: seq<Point>, k: nat)
    requires k < |s|
    ensures Sum(s) == Add(Sum(s[..k] + s[k + 1..]), s[k])
  {
    var n := |s|;
    if k == n - 1 {
      assert s[..k] + s[k + 1..] == s[..n - 1];
    } else {
      var init := s[..n - 1];
      SumWithout(init, k);
      assert init[..k] + init[k + 1..] == (s[..k] + s[k + 1..])[..n - 2];
      assert (s[..k] + s[k + 1..])[n - 2] == s[n - 1];
    }
  }

  lemma FirstIsMember(s: seq<Point>)
    requires s != []
    ensures s[0] in s
  {
  }

  /** Taking out the element at index k of a duplicate-free sequence leaves a
      duplicate-free sequence with every other element. */
  lemma RemoveAt(b: seq<Point>, k: nat)
    requires k < |b| && NoDuplicates(b)
    ensures NoDuplicates(b[..k] + b[k + 1..])
    ensures forall p :: p in b[..k] + b[k + 1..] <==> p in b && p != b[k]
  {
    var r := b[..k] + b[k + 1..];
    forall i, j | 0 <= i < j < |r| ensures r[i] != r[j] {
      var i' := if i < k then i else i + 1;
      var j' := if j < k then j else j + 1;
      assert r[i] == b[i'] && r[j] == b[j'] && i' < j';
    }
    forall p ensures p in r <==> p in b && p != b[k] {
      if p in r {
        var j :| 0 <= j < |r| && r[j] == p;
        var j' := if j < k then j else j + 1;
        assert b[j'] == p && j' != k;
      }
      if p in b && p != b[k] {
        var j :| 0 <= j < |b| && b[j] == p;
        assert j != k;
        assert r[if j < k then j else j - 1] == p;
      }
    }
  }

  /** Two duplicate-free sequences with the same points have the same length and
      the same sum, whatever their order. */
  lemma {:induction false} SumOfSameSet(a: seq<Point>, b: seq<Point>)
    requires NoDuplicates(a) && NoDuplicates(b)
    requires forall p :: p in a <==> p in b
    ensures |a| == |b| && Sum(a) == Sum(b)
  {
    if a == [] {
      if b != [] {
        FirstIsMember(b);
        assert false;
      }
    } else {
      var n := |a|;
      var x := a[n - 1];
      assert x in b;
      var k :| 0 <= k < |b| && b[k] == x;
      var a', b' := a[..n - 1], b[..k] + b[k + 1..];
      RemoveAt(b, k);
      RemoveAt(a, n - 1);
      assert a[..n - 1] + a[n..] == a';
      forall p ensures p in a' <==> p in b' {
        assert p in a' <==> p in a && p != x;
        assert p in b' <==> p in b && p != x;
      }
      SumOfSameSet(a', b');
      SumWithout(b, k);
    }
  }

  /** The center depends only on the set of points: neither their order nor how
      often each one is repeated matters. */
  lemma CenterDependsOnlyOnPointSet(a: seq<Point>, b: seq<Point>)
    requires forall p :: p in a <==> p in b
    ensures Center(a) == Center(b)
  {
    SumOfSameSet(Dedup(a), Dedup(b));
  }

  /** f applied to every element of s. */
  ghost function Image(s: seq<Point>, f: Point -> Point): (r: seq<Point>)
    ensures |r| == |s| && forall i :: 0 <= i < |s| ==> r[i] == f(s[i])
  {
    seq(|s|, i requires 0 <= i < |s| => f(s[i]))
  }

  /** When t is the image of s under an injective f, the images of the distinct
      points of s are distinct and are exactly the points of t. */
  lemma DistinctImage(s: seq<Point>, t: seq<Point>, f: Point -> Point)
    requires |t| == |s|
    requires forall i :: 0 <= i < |s| ==> t[i] == f(s[i])
    requires forall p, q :: f(p) == f(q) ==> p == q
    ensures NoDuplicates(Image(Dedup(s), f))
    ensures forall p :: p in Image(Dedup(s), f) <==> p in t
  {
    var ds := Dedup(s);
    var u := Image(ds, f);
    forall i, j | 0 <= i < j < |u| ensures u[i] != u[j] {
      assert ds[i] != ds[j];
    }
    forall p ensures p in u <==> p in t {
      if p in u {
        var i :| 0 <= i < |u| && u[i] == p;
        assert ds[i] in s;
        var j :| 0 <= j < |s| && s[j] == ds[i];
        assert t[j] == p;
      }
      if p in t {
        var j :| 0 <= j < |t| && t[j] == p;
        assert s[j] in ds;
        var i :| 0 <= i < |ds| && ds[i] == s[j];
        assert u[i] == p;
      }
    }
  }

  lemma TimesNext(n: nat, p: Point)
    ensures Times(n + 1, p) == Add(Times(n, p), p)
  {
    assert (n + 1) as real * p.x == n as real * p.x + p.x;
    assert (n + 1) as real * p.y == n as real * p.y + p.y;
  }

  /** Summing the transformed points: n pivots plus the transformed offsets. */
  lemma {:induction false} SumOfTransformed(s: seq<Point>, t: seq<Point>, m: Matrix2, c: Point)
    requires |t| == |s|
    requires forall i :: 0 <= i < |s| ==> t[i] == TransformPoint(s[i], m, c)
    ensures Sum(t) == Add(RowTimes(Sub(Sum(s), Times(|s|, c)), m), Times(|s|, c))
  {
    if s != [] {
      var n := |s|;
      SumOfTransformed(s[..n - 1], t[..n - 1], m, c);
      TimesNext(n - 1, c);
      var u := Sub(Sum(s[..n - 1]), Times(n - 1, c));
      var v := Sub(s[n - 1], c);
      assert Sub(Sum(s), Times(n, c)) == Add(u, v);
      RowTimesAdds(u, v, m);
    }
  }

  lemma RowTimesAdds(u: Point, v: Point, m: Matrix2)
    ensures RowTimes(Add(u, v), m) == Add(RowTimes(u, m), RowTimes(v, m))
  {
    assert (u.x + v.x) * m.a == u.x * m.a + v.x * m.a;
    assert (u.y + v.y) * m.c == u.y * m.c + v.y * m.c;
    assert (u.x + v.x) * m.b == u.x * m.b + v.x * m.b;
    assert (u.y + v.y) * m.d == u.y * m.d + v.y * m.d;
  }

  /** Summing the moved points: the original sum plus n offsets. */
  lemma {:induction false} SumOfMoved(s: seq<Point>, t: seq<Point>, offset: Point)
    requires |t| == |s|
    requires forall i :: 0 <= i < |s| ==> t[i] == Add(s[i], offset)
    ensures Sum(t) == Add(Sum(s), Times(|s|, offset))
  {
    if s != [] {
      SumOfMoved(s[..|s| - 1], t[..|s| - 1], offset);
      TimesNext(|s| - 1, offset);
    }
  }

  /** The mean times the number of points is their sum. */
  lemma SumIsAverageTimesCount(d: seq<Point>)
    requires d != []
    ensures Sum(d) == Times(|d|, Average(d))
  {
    var n := |d| as real;
    var S := Sum(d);
    assert n * (S.x / n) == S.x;
    assert n * (S.y / n) == S.y;
  }

  lemma MulDivCancel(n: real, v: real)
    requires n != 0.0
    ensures (n * v) / n == v
  {
  }

  /** A point that, times the number of points, gives their sum is their mean. */
  lemma AverageFromSum(d: seq<Point>, q: Point)
    requires d != []
    requires Sum(d) == Times(|d|, q)
    ensures Average(d) == q
  {
    MulDivCancel(|d| as real, q.x);
    MulDivCancel(|d| as real, q.y);
  }

  lemma TimesTransform(n: nat, p: Point, m: Matrix2, c: Point)
    ensures Add(RowTimes(Sub(Times(n, p), Times(n, c)), m), Times(n, c)) == Times(n, TransformPoint(p, m, c))
  {
    var k := n as real;
    assert (k * p.x - k * c.x) * m.a == k * ((p.x - c.x) * m.a);
    assert (k * p.y - k * c.y) * m.c == k * ((p.y - c.y) * m.c);
    assert (k * p.x - k * c.x) * m.b == k * ((p.x - c.x) * m.b);
    assert (k * p.y - k * c.y) * m.d == k * ((p.y - c.y) * m.d);
  }

  lemma TimesAdd(n: nat, p: Point, q: Point)
    ensures Add(Times(n, p), Times(n, q)) == Times(n, Add(p, q))
  {
    var k := n as real;
    assert k * p.x + k * q.x == k * (p.x + q.x);
    assert k * p.y + k * q.y == k * (p.y + q.y);
  }

  /** Averaging commutes with a pivot transform of non-zero determinant: the
      center of the transformed points is the transformed center. */
  lemma CenterOfTransformed(s: seq<Point>, m: Matrix2, c: Point)
    requires s != []
    requires Det(m) != 0.0
    ensures Center(Transformed(s, m, c)) == Some(TransformPoint(Center(s).value, m, c))
  {
    var t := Transformed(s, m, c);
    var f := (p: Point) => TransformPoint(p, m, c);
    forall p, q | f(p) == f(q) ensures p == q {
      TransformInjective(p, q, m, c);
    }
    var ds, dt := Dedup(s), Dedup(t);
    var u := Image(ds, f);
    DistinctImage(s, t, f);
    SumOfSameSet(dt, u);
    SumOfTransformed(ds, u, m, c);
    SumIsAverageTimesCount(ds);
    TimesTransform(|ds|, Average(ds), m, c);
    AverageFromSum(dt, TransformPoint(Average(ds), m, c));
  }

  /** Moving an object moves its center by the same offset. */
  lemma CenterOfMoved(s: seq<Point>, offset: Point)
    requires s != []
    ensures Center(Moved(s, offset)) == Some(Add(Center(s).value, offset))
  {
    var t := Moved(s, offset);
    var f := (p: Point) => Add(p, offset);
    forall p, q | f(p) == f(q) ensures p == q {
      MoveInjective(p, q, offset);
    }
    var ds, dt := Dedup(s), Dedup(t);
    var u := Image(ds, f);
    DistinctImage(s, t, f);
    SumOfSameSet(dt, u);
    SumOfMoved(ds, u, offset);
    SumIsAverageTimesCount(ds);
    TimesAdd(|ds|, Average(ds), offset);
    AverageFromSum(dt, Add(Average(ds), offset));
  }
}
