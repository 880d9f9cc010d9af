/** Scene objects and the window (models/object.py). A wireframe `Object` holds
    an ordered list of points that `move`, `zoom` and `rotate` overwrite in place;
    the `Window` subclass is the same object with a different `kind`, whose zoom
    inverts the factor and rolls back when the window would get smaller than the
    minimum size, and whose rotate does nothing. */
module Objects {
  import opened Wrappers
  import opened Geometry
  import opened Centroid
  import Naming

  /** An RGB triple. */
  datatype Color = Color(r: real, g: real, b: real)

  /** The colour an object gets when none is given: (0, 0, 0). */
  const Black := Color(0.0, 0.0, 0.0)

  /** Which class of models/object.py an object is an instance of. */
  datatype Kind = WireframeKind | WindowKind

  /** The exceptions Window.zoom can raise: Python's ZeroDivisionError for
      `0 ** -1`, and the RuntimeError "Maximum zoom in exceeded". */
  datatype ZoomError = ZeroFactor | MaximumZoomExceeded

  /** The smallest width and height a zoom may leave the window with. */
  const MinimumWindowSize: real := 10.0

  const WindowName := "window"

  /** The pivot `_transform` uses: the given one, else the current center. With
      no pivot and no points there is nothing to move and nothing moves. */
  function TransformedAbout(s: seq<Point>, m: Matrix2, pivot: Option<Point>): seq<Point>
  {
    if pivot.Some? then Transformed(s, m, pivot.value)
    else if s == [] then []
    else Transformed(s, m, Center(s).value)
  }

  /** What Object.zoom(f) makes of the points: a scaling by f about their center. */
  function Zoomed(s: seq<Point>, f: real): seq<Point>
  {
    TransformedAbout(s, Scaling(f), None)
  }

  /** The five points of a new w x h window: the corners top-left, top-right,
      bottom-right, bottom-left, and the top-left again to close it. */
  function WindowCorners(width: real, height: real): seq<Point>
  {
    var topLeft := Point(-width / 2.0, height / 2.0);
    [topLeft, Point(width / 2.0, height / 2.0), Point(width / 2.0, -height / 2.0),
     Point(-width / 2.0, -height / 2.0), topLeft]
  }

  /** Five points forming a closed axis-aligned rectangle in the order of WindowCorners. */
  predicate IsRectangle(s: seq<Point>)
  {
    && |s| == 5
    && s[4] == s[0]
    && s[0].x == s[3].x && s[1].x == s[2].x
    && s[0].y == s[1].y && s[2].y == s[3].y
  }

  /** Width and height as Window.zoom measures them from `boundaries`:
      top-right (index 1) minus bottom-left (index 3). */
  function Width(s: seq<Point>): real requires |s| == 5 { s[1].x - s[3].x }

  function Height(s: seq<Point>): real requires |s| == 5 { s[1].y - s[3].y }

  /** A new window is a closed rectangle of exactly the requested size. */
  lemma WindowCornersShape(width: real, height: real)
    ensures IsRectangle(WindowCorners(width, height))
    ensures Width(WindowCorners(width, height)) == width
    ensures Height(WindowCorners(width, height)) == height
  {
  }

  /** Moving keeps a rectangle a rectangle of the same size. */
  lemma MovedRectangle(s: seq<Point>, offset: Point)
    requires IsRectangle(s)
    ensures IsRectangle(Moved(s, offset))
    ensures Width(Moved(s, offset)) == Width(s) && Height(Moved(s, offset)) == Height(s)
  {
  }

  /** Two points in one column (or one row) stay in one column (row) after a
      scaling, and their distance is multiplied by the factor. */
  lemma ScaledPair(p: Point, q: Point, g: real, c: Point)
    ensures var p', q' := TransformPoint(p, Scaling(g), c), TransformPoint(q, Scaling(g), c);
      && p'.x - q'.x == g * (p.x - q.x)
      && p'.y - q'.y == g * (p.y - q.y)
      && (p.x == q.x ==> p'.x == q'.x)
      && (p.y == q.y ==> p'.y == q'.y)
  {
    ScalingAboutPivot(p, g, c);
    ScalingAboutPivot(q, g, c);
    assert g * (p.x - c.x) - g * (q.x - c.x) == g * (p.x - q.x);
    assert g * (p.y - c.y) - g * (q.y - c.y) == g * (p.y - q.y);
  }

  /** Scaling by g about any pivot keeps a rectangle a rectangle and multiplies
      its width and height by g. */
  lemma ScaledRectangle(s: seq<Point>, g: real, c: Point)
    requires IsRectangle(s)
    ensures IsRectangle(Transformed(s, Scaling(g), c))
    ensures Width(Transformed(s, Scaling(g), c)) == g * Width(s)
    ensures Height(Transformed(s, Scaling(g), c)) == g * Height(s)
  {
    ScaledPair(s[0], s[3], g, c);
    ScaledPair(s[1], s[2], g, c);
    ScaledPair(s[0], s[1], g, c);
    ScaledPair(s[2], s[3], g, c);
    ScaledPair(s[1], s[3], g, c);
  }

  /** A window zoomed by 1/f ends up f times smaller in each direction. */
  lemma ZoomedWindowSize(s: seq<Point>, f: real)
    requires IsRectangle(s) && f != 0.0
    ensures IsRectangle(Zoomed(s, 1.0 / f))
    ensures Width(Zoomed(s, 1.0 / f)) == Width(s) / f
    ensures Height(Zoomed(s, 1.0 / f)) == Height(s) / f
  {
    ScaledRectangle(s, 1.0 / f, Center(s).value);
    assert (1.0 / f) * Width(s) == Width(s) / f;
    assert (1.0 / f) * Height(s) == Height(s) / f;
  }

  /** A zoom leaves the center where it was (for any non-zero factor). */
  lemma ZoomKeepsCenter(s: seq<Point>, f: real)
    requires f != 0.0
    ensures Center(Zoomed(s, f)) == Center(s)
  {
    if s != [] {
      var c := Center(s).value;
      assert Det(Scaling(f)) == f * f;
      CenterOfTransformed(s, Scaling(f), c);
      ScalingAboutPivot(c, f, c);
    }
  }

  /** zoom(f) followed by zoom(1/f) gives every point back. */
  lemma ZoomRoundTrip(s: seq<Point>, f: real)
    requires f != 0.0
    ensures Zoomed(Zoomed(s, f), 1.0 / f) == s
  {
    if s != [] {
      ZoomKeepsCenter(s, f);
      var c := Center(s).value;
      var t := Zoomed(Zoomed(s, f), 1.0 / f);
      forall i | 0 <= i < |s| ensures t[i] == s[i] {
        ScalingRoundTrip(s[i], f, c);
      }
    }
  }

  /** A rotation about the default pivot leaves the center where it was. */
  lemma RotationKeepsCenter(s: seq<Point>, r: Rotation)
    requires IsUnit(r)
    ensures Center(TransformedAbout(s, RotationMatrix(r), None)) == Center(s)
  {
    if s != [] {
      var c := Center(s).value;
      RotationDet(r);
      CenterOfTransformed(s, RotationMatrix(r), c);
    }
  }

  /** rotate(a, pivot) followed by rotate(-a, pivot) gives every point back, both
      about an explicit pivot and about the default one (the center). */
  lemma RotateRoundTrip(s: seq<Point>, r: Rotation, pivot: Option<Point>)
    requires IsUnit(r)
    ensures TransformedAbout(TransformedAbout(s, RotationMatrix(r), pivot), RotationMatrix(Opposite(r)), pivot) == s
  {
    if s != [] {
      var c := if pivot.Some? then pivot.value else Center(s).value;
      if pivot.None? {
        RotationKeepsCenter(s, r);
      }
      var t := TransformedAbout(TransformedAbout(s, RotationMatrix(r), pivot), RotationMatrix(Opposite(r)), pivot);
      forall i | 0 <= i < |s| ensures t[i] == s[i] {
        RotationRoundTrip(s[i], r, c);
      }
    }
  }

  /** The class attribute TOTAL_OBJECTS: how many objects were built, minus one. */
  class ObjectCounter {
    var total: int

    constructor ()
      ensures total == -1
    {
      total := -1;
    }

    /** Object.default_name(): the name the next object would get by default. */
    function DefaultName(): string
      reads this
    {
      Naming.DefaultName(total)
    }
  }

  class Object {
    const kind: Kind
    const name: string
    const color: Color
    var points: seq<Point>

    /** A window stays a closed axis-aligned rectangle: it is built as one, it
        is only ever moved or scaled, and it ignores rotations. */
    ghost predicate Valid()
      reads this
    {
      kind == WindowKind ==> IsRectangle(points)
    }

    /** Object(points, name, color); omitted arguments are None. The default name
        is taken BEFORE the counter is incremented. */
    constructor (initial: Option<seq<Point>>, givenName: Option<string>, givenColor: Option<Color>,
                 counter: ObjectCounter)
      modifies counter
      ensures Valid() && kind == WireframeKind
      ensures points == (if initial.Some? then initial.value else [])
      ensures name == (if givenName.Some? then givenName.value else Naming.DefaultName(old(counter.total)))
      ensures color == (if givenColor.Some? then givenColor.value else Black)
      ensures counter.total == old(counter.total) + 1
    {
      kind := WireframeKind;
      points := if initial.Some? then initial.value else [];
      name := if givenName.Some? then givenName.value else counter.DefaultName();
      color := if givenColor.Some? then givenColor.value else Black;
      counter.total := counter.total + 1;
    }

    /** Window(width, height): named "window", black, and it counts as a
        construction too. */
    constructor Window(width: real, height: real, counter: ObjectCounter)
      modifies counter
      ensures Valid() && kind == WindowKind && name == WindowName && color == Black
      ensures points == WindowCorners(width, height)
      ensures counter.total == old(counter.total) + 1
    {
      WindowCornersShape(width, height);
      kind := WindowKind;
      points := WindowCorners(width, height);
      name := WindowName;
      color := Black;
      counter.total := counter.total + 1;
    }

    /** The `center` property; None when the object has no points. */
    function CurrentCenter(): Option<Point>
      reads this
    {
      Center(points)
    }

    /** The `points` property: a window is drawn as the single point (0, 0). */
    function DrawnPoints(): (drawn: seq<Point>)
      reads this
      ensures kind == WindowKind ==> drawn == [Point(0.0, 0.0)]
      ensures kind == WireframeKind ==> drawn == points
    {
      if kind == WindowKind then [Point(0.0, 0.0)] else points
    }

    /** Window.boundaries: the bottom-left and the top-right corner. */
    function Boundaries(): (Point, Point)
      reads this
      requires Valid() && kind == WindowKind
    {
      (points[3], points[1])
    }

    /** `_transform(matrix, center)`: builds the homogeneous matrix
        translate(-c) . matrix . translate(c) once and sends every point, as the
        row vector (x, y, 1), through it, overwriting the list position by position. */
    method Transform(m: Matrix2, pivot: Option<Point>)
      requires Valid()
      requires kind == WindowKind ==> m == Scaling(m.a)
      modifies this
      ensures Valid()
      ensures points == TransformedAbout(old(points), m, pivot)
    {
      var c: Point;
      if pivot.Some? {
        c := pivot.value;
      } else if points == [] {
        return;
      } else {
        c := CurrentCenter().value;
      }
      var h := Composed(m, c);
      var pos := 0;
      while pos < |points|
        invariant 0 <= pos <= |points| == |old(points)|
        invariant forall k :: 0 <= k < pos ==> points[k] == TransformPoint(old(points)[k], m, c)
        invariant forall k :: pos <= k < |points| ==> points[k] == old(points)[k]
      {
        ComposedIsPivotTransform(m, c, points[pos]);
        points := points[pos := ApplyRow(points[pos], h)];
        pos := pos + 1;
      }
      if kind == WindowKind {
        ScaledRectangle(old(points), m.a, c);
      }
    }

    /** `move(offset)`: adds the offset to every point, position by position. */
    method Move(offset: Point)
      requires Valid()
      modifies this
      ensures Valid()
      ensures points == Moved(old(points), offset)
    {
      var pos := 0;
      while pos < |points|
        invariant 0 <= pos <= |points| == |old(points)|
        invariant forall k :: 0 <= k < pos ==> points[k] == Add(old(points)[k], offset)
        invariant forall k :: pos <= k < |points| ==> points[k] == old(points)[k]
      {
        points := points[pos := Add(points[pos], offset)];
        pos := pos + 1;
      }
      if kind == WindowKind {
        MovedRectangle(old(points), offset);
      }
    }

    /** `zoom(factor)`. A wireframe is scaled by the factor about its center and
        the call always succeeds. A window is scaled by 1/factor; if its width or
        height would drop below the minimum, its point list is put back exactly as
        it was and the call fails. */
    method Zoom(factor: real) returns (outcome: Outcome<ZoomError>)
      requires Valid()
      modifies this
      ensures Valid()
      ensures kind == WireframeKind ==> outcome == Pass && points == Zoomed(old(points), factor)
      ensures kind == WindowKind && factor == 0.0 ==> outcome == Fail(ZeroFactor) && points == old(points)
      ensures kind == WindowKind && factor != 0.0 ==>
        var zoomed := Zoomed(old(points), 1.0 / factor);
        if Width(zoomed) < MinimumWindowSize || Height(zoomed) < MinimumWindowSize
        then outcome == Fail(MaximumZoomExceeded) && points == old(points)
        else outcome == Pass && points == zoomed
      ensures kind == WindowKind && outcome == Pass ==>
        Width(points) >= MinimumWindowSize && Height(points) >= MinimumWindowSize
      ensures kind == WindowKind ==>
        (outcome == Pass <==> factor != 0.0 && Width(old(points)) / factor >= MinimumWindowSize
                                            && Height(old(points)) / factor >= MinimumWindowSize)
    {
      if kind == WireframeKind {
        Transform(Scaling(factor), None);
        return Pass;
      }
      if factor == 0.0 {
        return Fail(ZeroFactor);
      }
      var original := points;
      Transform(Scaling(1.0 / factor), None);
      var (minimum, maximum) := Boundaries();
      var width := maximum.x - minimum.x;
      var height := maximum.y - minimum.y;
      ZoomedWindowSize(original, factor);
      if width < MinimumWindowSize || height < MinimumWindowSize {
        points := original;
        return Fail(MaximumZoomExceeded);
      }
      return Pass;
    }

    /** `rotate(angle, center)`: a wireframe is rotated about the pivot (its
        center when none is given); a window ignores the call. */
    method Rotate(r: Rotation, pivot: Option<Point>)
      requires Valid()
      modifies this
      ensures Valid()
      ensures kind == WireframeKind ==> points == TransformedAbout(old(points), RotationMatrix(r), pivot)
      ensures kind == WindowKind ==> points == old(points)
    {
      if kind == WireframeKind {
        Transform(RotationMatrix(r), pivot);
      }
    }
  }
}
