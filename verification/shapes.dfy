/**
 The three concrete shapes and the part of the `GLShape` constructor that is
 plain bookkeeping: it asks the shape for its draw order, its vertex array and
 its packed fill colour, and derives the vertex count, the draw count and the
 float colour from them. The GPU buffers the constructor also fills are not
 modelled.
 */
module Shapes {
  import opened JavaTypes
  import PackedColor
  import CircleGeometry

  /** The closed set of shapes; a circle carries its section count. */
  datatype Shape = Circle(sections: int) | Square | Triangle

  /** The circle exactly as `GLShape.java` declares it. */
  const DeclaredCircle: Shape := Circle(CircleGeometry.SectionCount)

  /** A shape the Java code can construct: a circle's section count is stored into a `short[]`. */
  predicate WellTyped(s: Shape) {
    s.Circle? ==> IsShort(s.sections)
  }

  /** The primitive `glDrawElements` assembles from the draw order. */
  datatype DrawMode = Triangles | LineLoop

  /** `GLShape.getDrawMode()` before any shape overrides it. */
  const DefaultDrawMode: DrawMode := LineLoop

  /** `getDrawMode()` of each shape: the circle and the square are filled, the triangle is an outline. */
  function Mode(s: Shape): (m: DrawMode)
    ensures m == Triangles <==> !s.Triangle?
    ensures m == DefaultDrawMode <==> s.Triangle?
  {
    match s
    case Circle(_) => Triangles
    case Square => Triangles
    case Triangle => LineLoop
  }

  const CoordsPerVertex: int := 3

  /** `Square.squareCoords`: top left, bottom left, bottom right, top right. */
  const SquareCoords: seq<real> := [
    -0.5,  0.5, 0.0,
    -0.5, -0.5, 0.0,
     0.5, -0.5, 0.0,
     0.5,  0.5, 0.0]

  /**
   `Triangle.triangleCoords`: top, bottom left, bottom right. The literals
   `0.622008459f` and `-0.311004243f` are stored as the `float` values they
   round to.
   */
  const TriangleCoords: seq<real> := [
     0.0,  0.62200844287872314453125,   0.0,
    -0.5, -0.3110042512416839599609375, 0.0,
     0.5, -0.3110042512416839599609375, 0.0]

  const SquareOrder: seq<int> := [0, 1, 2, 0, 2, 3]
  const TriangleOrder: seq<int> := [0, 1, 2]

  /** `getCounterClockWiseVertex()` of each shape. */
  function Coords(s: Shape, trig: CircleGeometry.Trig): (r: Result<seq<real>>)
    requires WellTyped(s)
    ensures r.Ok? ==> |r.value| % CoordsPerVertex == 0
    ensures !s.Circle? ==> r.Ok?
  {
    match s
    case Circle(n) => CircleGeometry.CircleCoords(n, trig)
    case Square => Ok(SquareCoords)
    case Triangle => Ok(TriangleCoords)
  }

  /** `getDrawOrder()` of each shape. */
  function DrawOrder(s: Shape): (r: Result<seq<int>>)
    requires WellTyped(s)
    ensures !s.Circle? ==> r.Ok?
  {
    match s
    case Circle(n) => CircleGeometry.CircleDrawOrder(n)
    case Square => Ok(SquareOrder)
    case Triangle => Ok(TriangleOrder)
  }

  /**
   `getFillColorRGBA()` of each shape: the int `Color.parseColor` yields for
   the shape's eight-digit colour literal, whose hex digits are the literal's.
   `Color.parseColor` reads such a literal as #AARRGGBB, but
   `toColorFloatArray` reads the same bits as 0xRRGGBBAA.
   */
  function FillColorRGBA(s: Shape): bv32 {
    match s
    case Circle(_) => 0x0000_FF00
    case Square => 0xFFFF_FFFF
    case Triangle => 0x00FF_0000
  }

  /** True iff every index of `order` names one of `vertexCount` vertices. */
  predicate IndicesValid(order: seq<int>, vertexCount: int) {
    forall k :: 0 <= k < |order| ==> 0 <= order[k] < vertexCount
  }

  /** The fields the `GLShape` constructor initialises, without the GPU buffers. */
  datatype ShapeData = ShapeData(
    vertexCoords: seq<real>,
    vertexCount: int,
    drawOrder: seq<int>,
    drawCount: int,
    color: seq<real>,
    mode: DrawMode)

  /**
   The `GLShape` constructor: the draw order is requested first, so its
   exception is the one a circle with too few sections raises. The
   constructor itself checks nothing; the contract states what holds anyway.
   */
  function Construct(s: Shape, trig: CircleGeometry.Trig): (r: Result<ShapeData>)
    requires WellTyped(s)
    ensures r.Ok? <==> !(s.Circle? && s.sections < 1)
    ensures r.Thrown? ==> DrawOrder(s).Thrown? && r.exception == DrawOrder(s).exception
    ensures r.Ok? ==> |r.value.vertexCoords| == CoordsPerVertex * r.value.vertexCount
    ensures r.Ok? ==> r.value.drawCount == |r.value.drawOrder|
    ensures r.Ok? ==> IndicesValid(r.value.drawOrder, r.value.vertexCount)
    ensures r.Ok? && r.value.mode == Triangles ==> r.value.drawCount % 3 == 0
    ensures r.Ok? ==> |r.value.color| == 4
    ensures r.Ok? ==> forall i :: 0 <= i < 4 ==> 0.0 <= r.value.color[i] <= 1.0
    ensures r.Ok? ==> r.value.drawOrder == DrawOrder(s).value
    ensures r.Ok? ==> r.value.vertexCoords == Coords(s, trig).value
    ensures r.Ok? ==> r.value.color == PackedColor.ToColorFloatArray(FillColorRGBA(s))
    ensures r.Ok? ==> r.value.mode == Mode(s)
  {
    match DrawOrder(s)
    case Thrown(e) => Thrown(e)
    case Ok(order) =>
      match Coords(s, trig)
      case Thrown(e) => Thrown(e)
      case Ok(coords) =>
        OrderFitsVertices(s, trig);
        Ok(ShapeData(
          coords,
          |coords| / CoordsPerVertex,
          order,
          |order|,
          PackedColor.ToColorFloatArray(FillColorRGBA(s)),
          Mode(s)))
  }

  /** Every shape's draw order indexes only vertices its own vertex array holds. */
  lemma OrderFitsVertices(s: Shape, trig: CircleGeometry.Trig)
    requires WellTyped(s)
    requires DrawOrder(s).Ok?
    ensures Coords(s, trig).Ok?
    ensures IndicesValid(DrawOrder(s).value, |Coords(s, trig).value| / CoordsPerVertex)
  {
    match s
    case Circle(n) =>
      CircleGeometry.FanIndicesInRange(n);
    case Square =>
    case Triangle =>
  }

  /** What the constructor derives for each shape `GLShape.java` declares. */
  lemma {:induction false} DeclaredShapeCounts(trig: CircleGeometry.Trig)
    ensures Construct(DeclaredCircle, trig).Ok?
    ensures Construct(DeclaredCircle, trig).value.vertexCount == 361
    ensures Construct(DeclaredCircle, trig).value.drawCount == 1080
    ensures Construct(Square, trig).Ok?
    ensures Construct(Square, trig).value.vertexCount == 4
    ensures Construct(Square, trig).value.drawCount == 6
    ensures Construct(Triangle, trig).Ok?
    ensures Construct(Triangle, trig).value.vertexCount == 3
    ensures Construct(Triangle, trig).value.drawCount == 3
  {
  }

  /** Twice the signed area of the triangle `(i, j, k)` in the xy-plane; positive when counter-clockwise. */
  function SignedArea2(coords: seq<real>, i: nat, j: nat, k: nat): real
    requires 3 * i + 1 < |coords| && 3 * j + 1 < |coords| && 3 * k + 1 < |coords|
  {
    (coords[3 * j] - coords[3 * i]) * (coords[3 * k + 1] - coords[3 * i + 1])
    - (coords[3 * j + 1] - coords[3 * i + 1]) * (coords[3 * k] - coords[3 * i])
  }

  /**
   The square's two triangles share the diagonal 0-2, together use all four
   corners, and both wind counter-clockwise; the triangle's outline does too.
   */
  lemma FixedShapesCounterClockwise()
    ensures |SquareOrder| == 6 && SquareOrder[..3] == [0, 1, 2] && SquareOrder[3..] == [0, 2, 3]
    ensures (set k | 0 <= k < |SquareOrder| :: SquareOrder[k]) == {0, 1, 2, 3}
    ensures SignedArea2(SquareCoords, 0, 1, 2) > 0.0
    ensures SignedArea2(SquareCoords, 0, 2, 3) > 0.0
    ensures SignedArea2(TriangleCoords, 0, 1, 2) > 0.0
  {
    var used := set k | 0 <= k < |SquareOrder| :: SquareOrder[k];
    assert SquareOrder[0] == 0 && SquareOrder[1] == 1 && SquareOrder[2] == 2 && SquareOrder[5] == 3;
    assert used == {0, 1, 2, 3};
  }

  /** The colours the three shapes are drawn in, as (r, g, b, a). */
  lemma FillColors()
    ensures PackedColor.ToColorFloatArray(FillColorRGBA(DeclaredCircle)) == [0.0, 0.0, 1.0, 0.0]
    ensures PackedColor.ToColorFloatArray(FillColorRGBA(Square)) == [1.0, 1.0, 1.0, 1.0]
    ensures PackedColor.ToColorFloatArray(FillColorRGBA(Triangle)) == [0.0, 1.0, 0.0, 0.0]
  {
  }

  /** `GLShape.Rotate`: the quarter-turn rotations the transforming `draw` accepts. */
  datatype Rotate = None | FlipDegree90 | FlipDegree180 | FlipDegree270

  /** `Rotate.value()`: the rotation in degrees. */
  function Degree(rot: Rotate): (d: int)
    ensures d % 90 == 0 && 0 <= d < 360
    ensures d == 0 <==> rot == None
  {
    match rot
    case None => 0
    case FlipDegree90 => 90
    case FlipDegree180 => 180
    case FlipDegree270 => 270
  }

  /** The constant `Rotate` that carries a given degree value, if any. */
  function FromDegree(d: int): (r: DegreeLookup)
    ensures r.Known? <==> d in {0, 90, 180, 270}
  {
    if d == 0 then Known(None)
    else if d == 90 then Known(FlipDegree90)
    else if d == 180 then Known(FlipDegree180)
    else if d == 270 then Known(FlipDegree270)
    else Unknown
  }

  datatype DegreeLookup = Known(rot: Rotate) | Unknown

  /** Distinct constants carry distinct degrees, and each degree names its constant back. */
  lemma DegreeRoundTrip(rot: Rotate)
    ensures FromDegree(Degree(rot)) == Known(rot)
  {
  }

  /** One library matrix call made by the transforming `draw` overload. */
  datatype MatrixStep =
    | ScaleM(sx: real, sy: real, sz: real)
    | RotateM(degrees: int, x: int, y: int, z: int)

  /**
   The matrix calls `draw(m, scaleX, scaleY, flip, mirror)` applies to `m`, in
   order: always the scale, then a rotation about z unless `flip` is `None`,
   then a half turn about y when mirroring.
   */
  function TransformSteps(scaleX: real, scaleY: real, flip: Rotate, mirror: bool): (steps: seq<MatrixStep>)
    ensures |steps| == 1 + (if flip != None then 1 else 0) + (if mirror then 1 else 0)
    ensures steps[0] == ScaleM(scaleX, scaleY, 1.0)
    ensures flip != None <==> |steps| >= 2 && steps[1] == RotateM(Degree(flip), 0, 0, 1)
    ensures mirror <==> steps[|steps| - 1] == RotateM(180, 0, 1, 0)
    ensures forall i :: 1 <= i < |steps| ==> steps[i].RotateM?
  {
    [ScaleM(scaleX, scaleY, 1.0)]
    + (if flip != None then [RotateM(Degree(flip), 0, 0, 1)] else [])
    + (if mirror then [RotateM(180, 0, 1, 0)] else [])
  }
}
