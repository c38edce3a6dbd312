/**
  Seed construction of a bounding sphere from a point set (Module1/CollisionGeometry.h).

  For each axis the scan keeps the index of the first point with the smallest and the
  first point with the largest coordinate; of the three index pairs the one with the
  largest squared extent is chosen (any tie for the largest keeps X); the sphere is centred on
  the midpoint of that pair and passes through both points.
 */
module CollisionGeometry {
  import opened Vec

  datatype Sphere = Sphere(center: Vec3, radius: real)

  /** Vector2Int as the scan uses it: x is the min index, y the max index. */
  datatype Vector2Int = Vector2Int(minIndex: int, maxIndex: int)

  datatype Axis = X | Y | Z

  function Coord(p: Vec3, a: Axis): real
  {
    match a
    case X => p.x
    case Y => p.y
    case Z => p.z
  }

  /** Position of an axis's pair in the vector returned by the scan. */
  function Slot(a: Axis): nat
  {
    match a
    case X => 0
    case Y => 1
    case Z => 2
  }

  // ---------------------------------------------------------------------------
  // FindMinMaxValues
  // ---------------------------------------------------------------------------

  /** `k` is the first index of a smallest `a`-coordinate among `points[..n]`. */
  ghost predicate IsFirstMin(points: seq<Vec3>, n: nat, a: Axis, k: int)
    requires n <= |points|
  {
    && 0 <= k < n
    && (forall j :: 0 <= j < n ==> Coord(points[k], a) <= Coord(points[j], a))
    && (forall j :: 0 <= j < k ==> Coord(points[j], a) > Coord(points[k], a))
  }

  /** `k` is the first index of a largest `a`-coordinate among `points[..n]`. */
  ghost predicate IsFirstMax(points: seq<Vec3>, n: nat, a: Axis, k: int)
    requires n <= |points|
  {
    && 0 <= k < n
    && (forall j :: 0 <= j < n ==> Coord(points[k], a) >= Coord(points[j], a))
    && (forall j :: 0 <= j < k ==> Coord(points[j], a) < Coord(points[k], a))
  }

  /** The min index after scanning `points[..n]`: a point replaces it only when strictly smaller. */
  function MinIndex(points: seq<Vec3>, n: nat, a: Axis): (k: nat)
    requires 1 <= n <= |points|
    ensures k < n
  {
    if n == 1 then 0
    else
      var k := MinIndex(points, n - 1, a);
      if Coord(points[n - 1], a) < Coord(points[k], a) then n - 1 else k
  }

  /** The max index after scanning `points[..n]`: a point replaces it only when strictly larger. */
  function MaxIndex(points: seq<Vec3>, n: nat, a: Axis): (k: nat)
    requires 1 <= n <= |points|
    ensures k < n
  {
    if n == 1 then 0
    else
      var k := MaxIndex(points, n - 1, a);
      if Coord(points[n - 1], a) > Coord(points[k], a) then n - 1 else k
  }

  function AxisPair(points: seq<Vec3>, n: nat, a: Axis): Vector2Int
    requires 1 <= n <= |points|
  {
    Vector2Int(MinIndex(points, n, a), MaxIndex(points, n, a))
  }

  /** The three pairs FindMinMaxValues returns; with fewer than one point every index stays 0. */
  function MinMaxValues(points: seq<Vec3>, numPoints: int): seq<Vector2Int>
    requires numPoints <= |points|
  {
    if numPoints < 1 then [Vector2Int(0, 0), Vector2Int(0, 0), Vector2Int(0, 0)]
    else [AxisPair(points, numPoints, X), AxisPair(points, numPoints, Y), AxisPair(points, numPoints, Z)]
  }

  lemma {:induction false} MinIndexIsFirstMin(points: seq<Vec3>, n: nat, a: Axis)
    requires 1 <= n <= |points|
    ensures IsFirstMin(points, n, a, MinIndex(points, n, a))
  {
    if n > 1 {
      MinIndexIsFirstMin(points, n - 1, a);
    }
  }

  lemma {:induction false} MaxIndexIsFirstMax(points: seq<Vec3>, n: nat, a: Axis)
    requires 1 <= n <= |points|
    ensures IsFirstMax(points, n, a, MaxIndex(points, n, a))
  {
    if n > 1 {
      MaxIndexIsFirstMax(points, n - 1, a);
    }
  }

  /**
    The scan's min index is exactly the first index of a smallest coordinate: on equal
    coordinates the earliest index is kept.
   */
  lemma MinIndexCharacterized(points: seq<Vec3>, n: nat, a: Axis, k: int)
    requires 1 <= n <= |points|
    ensures IsFirstMin(points, n, a, k) <==> k == MinIndex(points, n, a)
  {
    MinIndexIsFirstMin(points, n, a);
  }

  /** The scan's max index is exactly the first index of a largest coordinate. */
  lemma MaxIndexCharacterized(points: seq<Vec3>, n: nat, a: Axis, k: int)
    requires 1 <= n <= |points|
    ensures IsFirstMax(points, n, a, k) <==> k == MaxIndex(points, n, a)
  {
    MaxIndexIsFirstMax(points, n, a);
  }

  /**
    What FindMinMaxValues promises: three pairs, every index in range, and per axis the
    first minimum and first maximum of the scanned points.
   */
  lemma MinMaxValuesCorrect(points: seq<Vec3>, numPoints: int)
    requires numPoints <= |points|
    ensures var r := MinMaxValues(points, numPoints);
      && |r| == 3
      && (forall i :: 0 <= i < 3 ==> 0 <= r[i].minIndex < if numPoints < 1 then 1 else numPoints)
      && (forall i :: 0 <= i < 3 ==> 0 <= r[i].maxIndex < if numPoints < 1 then 1 else numPoints)
      && (numPoints >= 1 ==> forall a: Axis ::
            IsFirstMin(points, numPoints, a, r[Slot(a)].minIndex)
            && IsFirstMax(points, numPoints, a, r[Slot(a)].maxIndex))
  {
    if numPoints >= 1 {
      forall a: Axis
        ensures IsFirstMin(points, numPoints, a, MinIndex(points, numPoints, a))
        ensures IsFirstMax(points, numPoints, a, MaxIndex(points, numPoints, a))
      {
        MinIndexIsFirstMin(points, numPoints, a);
        MaxIndexIsFirstMax(points, numPoints, a);
      }
    }
  }

  /** With at most one point every index is 0. */
  lemma MinMaxValuesSinglePoint(points: seq<Vec3>, numPoints: int)
    requires numPoints <= 1 && numPoints <= |points|
    ensures MinMaxValues(points, numPoints) == [Vector2Int(0, 0), Vector2Int(0, 0), Vector2Int(0, 0)]
  {
  }

  /** FindMinMaxValues: one pass over points[1..numPoints) updating the three pairs. */
  method FindMinMaxValues(points: seq<Vec3>, numPoints: int) returns (r: seq<Vector2Int>)
    requires numPoints <= |points|
    ensures r == MinMaxValues(points, numPoints)
  {
    var minMaxX, minMaxY, minMaxZ := Vector2Int(0, 0), Vector2Int(0, 0), Vector2Int(0, 0);
    var i := 1;
    while i < numPoints
      invariant numPoints >= 1 ==> 1 <= i <= numPoints
      invariant numPoints >= 1 ==> minMaxX == AxisPair(points, i, X)
      invariant numPoints >= 1 ==> minMaxY == AxisPair(points, i, Y)
      invariant numPoints >= 1 ==> minMaxZ == AxisPair(points, i, Z)
      invariant numPoints < 1 ==> minMaxX == minMaxY == minMaxZ == Vector2Int(0, 0)
      decreases numPoints - i
    {
      var pt := points[i];

      if pt.x < points[minMaxX.minIndex].x { minMaxX := minMaxX.(minIndex := i); }
      if pt.x > points[minMaxX.maxIndex].x { minMaxX := minMaxX.(maxIndex := i); }

      if pt.y < points[minMaxY.minIndex].y { minMaxY := minMaxY.(minIndex := i); }
      if pt.y > points[minMaxY.maxIndex].y { minMaxY := minMaxY.(maxIndex := i); }

      if pt.z < points[minMaxZ.minIndex].z { minMaxZ := minMaxZ.(minIndex := i); }
      if pt.z > points[minMaxZ.maxIndex].z { minMaxZ := minMaxZ.(maxIndex := i); }

      i := i + 1;
    }
    r := [minMaxX, minMaxY, minMaxZ];
  }

  // ---------------------------------------------------------------------------
  // FindMostDistantPoints
  // ---------------------------------------------------------------------------

  /**
    The axis whose pair is kept, given the three squared extents: X unless Y beats both
    others strictly, or Z beats both others strictly.
   */
  function ChosenAxis(xDistance: real, yDistance: real, zDistance: real): (a: Axis)
    ensures a == Y <==> yDistance > xDistance && yDistance > zDistance
    ensures a == Z <==> zDistance > xDistance && zDistance > yDistance
    ensures a == X <==> !(yDistance > xDistance && yDistance > zDistance)
                        && !(zDistance > xDistance && zDistance > yDistance)
  {
    var afterY := if yDistance > xDistance && yDistance > zDistance then Y else X;
    if zDistance > xDistance && zDistance > yDistance then Z else afterY
  }

  function Extent(a: Axis, xDistance: real, yDistance: real, zDistance: real): real
  {
    match a
    case X => xDistance
    case Y => yDistance
    case Z => zDistance
  }

  /**
    The chosen extent is the largest of the three, except when Y and Z tie above X:
    then X is chosen although its extent is smaller.
   */
  lemma ChosenAxisIsLargestUnlessTie(xDistance: real, yDistance: real, zDistance: real)
    ensures var a := ChosenAxis(xDistance, yDistance, zDistance);
      var e := Extent(a, xDistance, yDistance, zDistance);
      (e >= xDistance && e >= yDistance && e >= zDistance)
      <==> !(yDistance == zDistance && yDistance > xDistance)
  {
  }

  /** The tie that makes the chosen extent not the largest. */
  lemma ChosenAxisTieExample()
    ensures ChosenAxis(1.0, 4.0, 4.0) == X
    ensures Extent(ChosenAxis(1.0, 4.0, 4.0), 1.0, 4.0, 4.0) < 4.0
  {
  }

  /** Squared distance between the two points of a pair. */
  function PairDistance(pair: Vector2Int, points: seq<Vec3>): real
    requires 0 <= pair.minIndex < |points| && 0 <= pair.maxIndex < |points|
  {
    var v := Sub(points[pair.maxIndex], points[pair.minIndex]);
    Dot(v, v)
  }

  ghost predicate PairsInRange(minMaxPoints: seq<Vector2Int>, points: seq<Vec3>)
  {
    && |minMaxPoints| == 3
    && forall i :: 0 <= i < 3 ==>
         0 <= minMaxPoints[i].minIndex < |points| && 0 <= minMaxPoints[i].maxIndex < |points|
  }

  /** The pair FindMostDistantPoints returns. */
  function MostDistantPair(minMaxPoints: seq<Vector2Int>, points: seq<Vec3>): Vector2Int
    requires PairsInRange(minMaxPoints, points)
  {
    var a := ChosenAxis(PairDistance(minMaxPoints[0], points),
                        PairDistance(minMaxPoints[1], points),
                        PairDistance(minMaxPoints[2], points));
    minMaxPoints[Slot(a)]
  }

  /** FindMostDistantPoints: starts from the X pair and lets Y, then Z, replace it. */
  method FindMostDistantPoints(minMaxPoints: seq<Vector2Int>, points: seq<Vec3>)
    returns (maxDistance: Vector2Int)
    requires PairsInRange(minMaxPoints, points)
    ensures maxDistance == MostDistantPair(minMaxPoints, points)
    ensures maxDistance in minMaxPoints
  {
    var xVec := Sub(points[minMaxPoints[0].maxIndex], points[minMaxPoints[0].minIndex]);
    var xDistance := Dot(xVec, xVec);

    var yVec := Sub(points[minMaxPoints[1].maxIndex], points[minMaxPoints[1].minIndex]);
    var yDistance := Dot(yVec, yVec);

    var zVec := Sub(points[minMaxPoints[2].maxIndex], points[minMaxPoints[2].minIndex]);
    var zDistance := Dot(zVec, zVec);

    maxDistance := minMaxPoints[0];

    if yDistance > xDistance && yDistance > zDistance {
      maxDistance := minMaxPoints[1];
    }

    if zDistance > xDistance && zDistance > yDistance {
      maxDistance := minMaxPoints[2];
    }
  }

  // ---------------------------------------------------------------------------
  // BuildSphereFromPoints
  // ---------------------------------------------------------------------------

  /** The sphere through p1 and p2 centred on 0.5 * (p1 + p2), radius glm::length(p2 - centre). */
  function SphereThrough(p1: Vec3, p2: Vec3, sqrt: real -> real): Sphere
  {
    var center := Scale(Add(p1, p2), 0.5);
    Sphere(center, Length(Sub(p2, center), sqrt))
  }

  /** Offsets of the two points and of each other from their midpoint. */
  // The midpoint identities, one per lemma: stated together, the solver's real
  // arithmetic does not finish.

  lemma MidpointIsHalfway(p1: Vec3, p2: Vec3)
    ensures Scale(Add(p1, p2), 0.5) == Add(p1, Scale(Sub(p2, p1), 0.5))
  {
  }

  lemma MidpointOffsetsOpposite(p1: Vec3, p2: Vec3)
    ensures Sub(p1, Scale(Add(p1, p2), 0.5)) == Neg(Sub(p2, Scale(Add(p1, p2), 0.5)))
  {
  }

  lemma MidpointOffsetDoubled(p1: Vec3, p2: Vec3)
    ensures Sub(p2, p1) == Scale(Sub(p2, Scale(Add(p1, p2), 0.5)), 2.0)
  {
  }

  lemma MidpointOffsetZero(p1: Vec3, p2: Vec3)
    ensures Sub(p2, Scale(Add(p1, p2), 0.5)) == Zero <==> p1 == p2
  {
    var h := Sub(p2, Scale(Add(p1, p2), 0.5));
    if h == Zero {
      assert p1 == Vec3(p2.x, p2.y, p2.z);
    }
  }

  /**
    The sphere's centre is halfway from p1 to p2, both points lie on it, its squared
    radius is a quarter of their squared distance, and the radius is zero exactly when
    the points coincide.
   */
  lemma SphereThroughProperties(p1: Vec3, p2: Vec3, sqrt: real -> real)
    requires SqrtAt(sqrt, LengthSq(Sub(p2, Scale(Add(p1, p2), 0.5))))
    ensures var s := SphereThrough(p1, p2, sqrt);
      && s.center == Add(p1, Scale(Sub(p2, p1), 0.5))
      && s.radius >= 0.0
      && Square(s.radius) == LengthSq(Sub(p2, s.center))
      && Square(s.radius) == LengthSq(Sub(p1, s.center))
      && 4.0 * Square(s.radius) == LengthSq(Sub(p2, p1))
      && (s.radius == 0.0 <==> p1 == p2)
  {
    var c := Scale(Add(p1, p2), 0.5);
    var h := Sub(p2, c);
    var r := sqrt(LengthSq(h));
    assert SphereThrough(p1, p2, sqrt) == Sphere(c, r);
    MidpointIsHalfway(p1, p2);
    MidpointOffsetsOpposite(p1, p2);
    MidpointOffsetDoubled(p1, p2);
    MidpointOffsetZero(p1, p2);
    LengthSqNeg(h);
    LengthSqScale(h, 2.0);
    LengthSqZero(h);
    if r != 0.0 {
      SquarePositive(r);
    }
  }

  /** The sphere BuildSphereFromPoints returns. */
  function SphereFromPoints(points: seq<Vec3>, numPoints: int, sqrt: real -> real): Sphere
    requires 1 <= |points| && numPoints <= |points|
  {
    MinMaxValuesCorrect(points, numPoints);
    var pair := MostDistantPair(MinMaxValues(points, numPoints), points);
    SphereThrough(points[pair.minIndex], points[pair.maxIndex], sqrt)
  }

  /**
    The seed sphere is centred between the min and max point of one axis, passes through
    both, and that axis is the one FindMostDistantPoints selects.
   */
  lemma SphereFromPointsProperties(points: seq<Vec3>, numPoints: int, sqrt: real -> real)
    requires 1 <= numPoints <= |points|
    requires var pair := AxisPair(points, numPoints, ChosenAxis(
               PairDistance(AxisPair(points, numPoints, X), points),
               PairDistance(AxisPair(points, numPoints, Y), points),
               PairDistance(AxisPair(points, numPoints, Z), points)));
             var p1, p2 := points[pair.minIndex], points[pair.maxIndex];
             SqrtAt(sqrt, LengthSq(Sub(p2, Scale(Add(p1, p2), 0.5))))
    ensures var a := ChosenAxis(
              PairDistance(AxisPair(points, numPoints, X), points),
              PairDistance(AxisPair(points, numPoints, Y), points),
              PairDistance(AxisPair(points, numPoints, Z), points));
      var pair := AxisPair(points, numPoints, a);
      var p1, p2 := points[pair.minIndex], points[pair.maxIndex];
      var s := SphereFromPoints(points, numPoints, sqrt);
      && IsFirstMin(points, numPoints, a, pair.minIndex)
      && IsFirstMax(points, numPoints, a, pair.maxIndex)
      && Square(s.radius) == LengthSq(Sub(p1, s.center)) == LengthSq(Sub(p2, s.center))
      && 4.0 * Square(s.radius) == LengthSq(Sub(p2, p1))
      && s.radius >= 0.0
      && (s.radius == 0.0 <==> p1 == p2)
  {
    var a := ChosenAxis(
      PairDistance(AxisPair(points, numPoints, X), points),
      PairDistance(AxisPair(points, numPoints, Y), points),
      PairDistance(AxisPair(points, numPoints, Z), points));
    var pair := AxisPair(points, numPoints, a);
    MinMaxValuesCorrect(points, numPoints);
    assert MostDistantPair(MinMaxValues(points, numPoints), points) == pair;
    SphereThroughProperties(points[pair.minIndex], points[pair.maxIndex], sqrt);
  }

  /**
    BuildSphereFromPoints. `points` must hold at least one point: the selection reads
    points[0] even when numPoints is below one.
   */
  method BuildSphereFromPoints(points: seq<Vec3>, numPoints: int, sqrt: real -> real)
    returns (s: Sphere)
    requires 1 <= |points| && numPoints <= |points|
    ensures s == SphereFromPoints(points, numPoints, sqrt)
  {
    var minMaxVectors := FindMinMaxValues(points, numPoints);
    MinMaxValuesCorrect(points, numPoints);
    var mostDistantPoints := FindMostDistantPoints(minMaxVectors, points);

    var p1 := points[mostDistantPoints.minIndex];
    var p2 := points[mostDistantPoints.maxIndex];

    var center := Scale(Add(p1, p2), 0.5);
    var diff := Sub(p2, center);
    s := Sphere(center, Length(diff, sqrt));
  }
}
