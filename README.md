# Wireframe world: objects, window, world registry and coordinate validator

This project is a Dafny model of the 2D core of a small wireframe drawing
program. It covers three parts.

- **Scene objects** (`models/object.py`). An `Object` is an ordered list of 2D
  points with a name and a colour. `move` adds an offset to every point, in
  place. `zoom` and `rotate` go through one homogeneous transform: translate
  the pivot to the origin, apply a 2x2 matrix to the row vector (x, y), and
  translate back. The default pivot is the object's center, which is the
  average of its *distinct* points. A class-wide counter gives each new object
  the default name "object<N>".
- **The window** (`models/object.py`). A `Window` is a closed 5-point
  rectangle, created centered on the origin. Moving and zooming keep it a
  rectangle, which the class invariant states. Its `zoom` scales by the
  inverse of the factor. When the result would be narrower or lower than 10, it restores the
  points exactly and fails. Its `rotate` does nothing, and it is drawn as the
  single point (0, 0).
- **The world** (`models/world.py`). This is the registry from object name to
  object. It keeps the order in which names were first inserted, as a Python
  dictionary does.
- **The coordinate validator** (`windows/dialog.py`). The dialog decides
  whether to accept coordinate text by matching the regular expression
  `(-?\d+,-?\d+;)*-?\d+,-?\d+` at the start of the text.

Modules:

- `Wrappers`: Option, Result and a pass/fail Outcome.
- `Geometry`: points, 2x2 and homogeneous 3x3 matrices, and per-point transforms.
- `Centroid`: the center over distinct points, and how it moves under transforms.
- `Naming`: the decimal default names.
- `Objects`: the classes `ObjectCounter` and `Object`. A window is an `Object`
  whose `kind` is `WindowKind`.
- `Worlds`: the class `World`.
- `CoordinateDialog`: the regular-expression language, an executable scanner,
  and the decision made by `run`.

Coordinates are exact reals. The mutable point list is a `seq<Point>` field.
The methods overwrite it position by position in a loop, as the source's
`enumerate` loops do. Each method is specified by a function on the old
points (`Transformed`, `Moved`, `TransformedAbout`, `Zoomed`), and the
properties are proved about those functions.

## Model

| member | source | states |
|---|---|---|
| `Objects.Object.Move` | models/object.py:74-77 | every point p becomes p + offset; count and order are unchanged, and a window stays a rectangle |
| `Geometry.Moved` | models/object.py:76-77 | the moved list has the same length, and entry i is point i plus the offset |
| `Geometry.MoveInjective` | models/object.py:74-77 | moving is injective: two points moved by the same offset coincide only if they were equal |
| `Objects.Object.Transform` | models/object.py:46-72 | every point p becomes (p - c)·M + c. The pivot c is the given one, or else the current center. With no pivot and no points nothing changes. A window is only ever scaled, and it stays a rectangle |
| `Geometry.ComposedIsPivotTransform` | models/object.py:50-71 | the row vector (x, y, 1) times translate(-c)·[M]·translate(c) is (p - c)·M + c |
| `Geometry.ComposedEntries` | models/object.py:50-68 | the entries of the composed homogeneous matrix: M in the top-left block, c - c·M in the last row |
| `Geometry.Transformed` | models/object.py:70-72 | the transformed list has the same length, and entry i is the pivot transform of point i |
| `Geometry.TransformInjective` | models/object.py:46-72 | with det M ≠ 0, the pivot transform sends different points to different points |
| `Geometry.ScalingAboutPivot` | models/object.py:79-85 | scaling by f about c sends p to c + f·(p - c) |
| `Geometry.RotationAboutPivot` | models/object.py:87-93 | the rotation matrix [[cos, -sin], [sin, cos]] on the row vector sends p - c to ((p-c).x·cos + (p-c).y·sin, -(p-c).x·sin + (p-c).y·cos), then adds c |
| `Geometry.ScalingRoundTrip` | models/object.py:79-85 | scaling by f and then by 1/f about the same pivot gives every point back |
| `Geometry.RotationRoundTrip` | models/object.py:87-93 | for a unit (cos, sin), rotating and then rotating by the opposite angle about the same pivot gives the point back |
| `Geometry.RotationKeepsDistance` | models/object.py:87-93 | for a unit (cos, sin), a rotation keeps the squared distance to the pivot |
| `Geometry.RotationDet` | models/object.py:89-93 | for a unit (cos, sin), the rotation matrix has determinant 1, so a rotation is invertible |
| `Centroid.Dedup` | models/object.py:42-43 | the distinct points of a list: no duplicates, the same members, empty exactly when the list is empty |
| `Centroid.CenterDependsOnlyOnPointSet` | models/object.py:40-44 | two point lists with the same set of points have the same center |
| `Centroid.CenterIgnoresRepeatedPoint` | models/object.py:40-44 | appending a point that is already present, such as the closing point, leaves the center unchanged |
| `Centroid.SumOfSameSet` | models/object.py:42-43 | two duplicate-free lists with the same members have equal length and equal coordinate sums |
| `Centroid.SumWithout` | models/object.py:42-43 | the sum of a list is the sum without entry k, plus entry k |
| `Centroid.RemoveAt` | models/object.py:42-43 | removing entry k from a duplicate-free list leaves it duplicate-free, with exactly that member gone |
| `Centroid.DistinctImage` | models/object.py:42-43 | an injective map takes the distinct points of s to a duplicate-free list with the same members as the image of s |
| `Centroid.SumOfTransformed` | models/object.py:42-72 | the sum of the transformed points is (Σp - n·c)·M + n·c |
| `Centroid.SumOfMoved` | models/object.py:42-77 | the sum of the moved points is Σp + n·offset |
| `Centroid.SumIsAverageTimesCount` | models/object.py:44 | the average of n distinct points, times n, is their sum |
| `Centroid.AverageFromSum` | models/object.py:44 | if n distinct points sum to n·q, their average is q |
| `Centroid.CenterOfTransformed` | models/object.py:40-72 | with det M ≠ 0, the center of the transformed object is the transformed center |
| `Centroid.CenterOfMoved` | models/object.py:40-44 | the center of a moved object is its old center plus the offset |
| `Objects.ZoomKeepsCenter` | models/object.py:79-85 | a zoom by any non-zero factor keeps the center where it was |
| `Objects.ZoomRoundTrip` | models/object.py:79-85 | zoom(f) followed by zoom(1/f) gives every point back |
| `Objects.RotationKeepsCenter` | models/object.py:87-93 | a rotation about the default pivot keeps the center where it was |
| `Objects.RotateRoundTrip` | models/object.py:87-93 | rotate(a, pivot) followed by rotate(-a, pivot) gives every point back, for an explicit pivot and for the default one |
| `Objects.Object.Rotate` | models/object.py:87-93 | a wireframe is rotated about the pivot, or about its center when none is given |
| `Naming.NatDigits` | models/object.py:22 | the decimal digits of a natural number: non-empty, all digits, no leading zero |
| `Naming.NatDigitsRoundTrip` | models/object.py:22 | reading back the decimal digits of n gives n |
| `Naming.DecimalRoundTrip` | models/object.py:22 | parsing the decimal text of any integer, negative ones included, gives it back |
| `Naming.DefaultNameInjective` | models/object.py:19-22 | different counter values give different default names |
| `Naming.FirstDefaultName` | models/object.py:11-22 | with the counter at its initial -1, the default name is "object0" |
| `Objects.ObjectCounter.constructor` | models/object.py:11 | the counter starts at -1 |
| `Objects.Object.constructor` | models/object.py:13-17 | the points, name and colour are the given ones, else [], the default name taken before the increment, and black. The counter goes up by one |
| `Objects.Object.Window` | models/object.py:105-113 | a window has the five corner points, the name "window" and the colour black. The counter goes up by one |
| `Objects.WindowCornersShape` | models/object.py:105-118 | a new w x h window is a closed axis-aligned rectangle, and its boundaries give width w and height h |
| `Objects.MovedRectangle` | models/object.py:74-77 | moving a rectangle keeps it a rectangle of the same size |
| `Objects.ScaledPair` | models/object.py:79-85 | scaling multiplies the distance between two points by the factor and keeps shared rows and columns shared |
| `Objects.ScaledRectangle` | models/object.py:79-85 | scaling by g about any pivot keeps a rectangle a rectangle, with width and height multiplied by g |
| `Objects.ZoomedWindowSize` | models/object.py:124-134 | a window zoomed by 1/f stays a rectangle, and its width and height are divided by f |
| `Objects.Object.DrawnPoints` | models/object.py:120-122 | the window's `points` property: a window is drawn as the single point (0, 0); a wireframe as its own points, the base property at models/object.py lines 24-27 |
| `Objects.Object.Zoom` | models/object.py:124-139 | a wireframe is scaled by f. A window with f = 0 fails before changing anything. Otherwise the window is scaled by 1/f, and if the width or height measured from the boundaries is below 10, the old points are restored exactly and the call fails. On success both are at least 10. The window stays a rectangle, and success happens exactly when width/f and height/f are both at least 10 |
| `Worlds.InsertionOrderProperties` | models/world.py:19 | inserting a name keeps the names distinct, adds exactly that name, and moves no existing name |
| `Worlds.World.constructor` | models/world.py:6-7 | a new world holds no objects |
| `Worlds.World.Get` | models/world.py:9-10 | lookup succeeds exactly for stored names and returns the stored object; any other name fails with KeyError(name). In a valid world the object found under a name carries that name |
| `Worlds.World.Objects` | models/world.py:12-15 | the stored objects, one per name, in first-insertion order, and every stored object appears |
| `Worlds.NamesCount` | models/world.py:12-15 | a duplicate-free list of names covering a set has as many entries as the set |
| `Worlds.World.AddObject` | models/world.py:17-19 | the object is stored under its name and found there afterwards. A name already present is replaced and keeps its position, with the count unchanged. A new name goes last and adds one. Every other name looks up as before |
| `CoordinateDialog.MatchIsPairPrefix` | windows/dialog.py:9 | a start-anchored match of the pattern exists exactly when the text starts with one pair `-?\d+,-?\d+` |
| `CoordinateDialog.AcceptsIffStartsWithPair` | windows/dialog.py:9 | the scanner accepts exactly the texts that start with one integer pair |
| `CoordinateDialog.AcceptsIffPatternMatches` | windows/dialog.py:9 | the scanner accepts exactly the texts the pattern matches at their start |
| `CoordinateDialog.AcceptedStartsWithPair` | windows/dialog.py:9 | whatever the scanner accepts starts with an integer pair |
| `CoordinateDialog.PairPrefixAccepted` | windows/dialog.py:9 | every text starting with an integer pair is accepted by the scanner |
| `CoordinateDialog.DigitsEnd` | windows/dialog.py:9 | the digit run scanned from i is all digits and stops at the first non-digit |
| `CoordinateDialog.DefaultHintAccepted` | windows/dialog.py:9 | the default hint "0,0;50,0;50,50" is accepted |
| `CoordinateDialog.TrailingTextIgnored` | windows/dialog.py:9 | a three-component text such as "-100,0,0" is accepted, because the match is anchored only at the start |
| `CoordinateDialog.FirstCharacterRejected` | windows/dialog.py:9 | every empty text, and every text whose first character is neither a digit nor '-' (leading whitespace included), is rejected |
| `CoordinateDialog.LoneIntegerRejected` | windows/dialog.py:9 | every text that is a single integer is rejected |
| `CoordinateDialog.NoCommaAfterFirstInteger` | windows/dialog.py:9 | every text whose first integer is followed directly by neither a digit nor ',' is rejected, such as a decimal first coordinate |
| `CoordinateDialog.RejectedTexts` | windows/dialog.py:9 | examples: the empty text, " 0,0", "0.5,1", "x,1", "12" and "-,1" are rejected |
| `CoordinateDialog.RunOnce` | windows/dialog.py:54-63 | a non-OK response returns False without looking at the text. An OK response returns True exactly when the pattern matches, and otherwise the dialog runs again |

## Left out

- The GTK front end: widgets, signal wiring, drawing, message boxes and the
  retry loop of the warning decorator. One pass of `run` is modelled as
  `RunOnce`, whose `RunAgain` result stands for the exception that makes the
  wrapper show the warning and run the dialog again.
- Floating-point rounding. Coordinates are exact reals, and numpy's `average`
  and `dot` are exact arithmetic.
- Objects.Object.Rotate: the rotation takes the pair (cos a, sin a) as a
  parameter, because trigonometry is not modelled. The round-trip and
  distance lemmas assume cos² + sin² = 1.
- CoordinateDialog.IsDigit: Python's `\d` on text also matches non-ASCII
  decimal digits. The model accepts only '0' to '9'.
- Objects.Object.Transform: with no pivot and no points, the source computes
  a NaN center and then loops over nothing. The model changes nothing and has
  no center (`Center` returns None).
- Objects.Object.Zoom: for a window and factor 0, the source's `0 ** -1`
  raises ZeroDivisionError before anything changes. The model returns the
  error `ZeroFactor` instead.
- Aliasing: the source keeps, and then mutates, the very list passed to the
  constructor, and the `points` property hands out that same list. The model
  copies values, so a caller's list is never changed behind its back.
- Class-level state: `TOTAL_OBJECTS` is a class attribute shared by every
  object. The model passes an explicit `ObjectCounter` to the constructors.
- Subclassing: `Window` is the same class as `Object`, with a `kind` tag that
  selects the window's `zoom`, `rotate` and `points`.
- Code that the drawing front end calls but which is not part of this model:
  curves and splines, building objects from files, the viewport transform,
  clipping, 3D coordinates and the window's centre-of-projection distance.
- Adding an object under a name already in use could be expected to fail.
  The code assigns the dictionary entry and so silently replaces the old
  object. The model follows the code (`Worlds.World.AddObject`).
