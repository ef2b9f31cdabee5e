/** The edge construction of scan/activeEdgeTable.hh: orienting each side of a triangle
    from the lower row to the upper and deriving the per-row increments of X, depth, normal and UV. */
module EdgeSetup {
  import opened Vector3Util
  import opened Conversions
  import opened EdgeModel

  /** `xIncr` is the change of X per row: `deltaY` rows move X by `deltaX`; 0 for a horizontal edge. */
  ghost predicate SlopeSet(e: Edge)
  {
    var dy := e.end.y - e.start.y;
    (dy != 0.0 ==> e.xIncr * dy == e.end.x - e.start.x) && (dy == 0.0 ==> e.xIncr == 0.0)
  }

  /** `e` joins `a` and `b`, oriented so that it starts on the lower row (swapped only when
      `a.y > b.y`), with `maxY`, the starting X and the X increment set up. */
  ghost predicate Spans(e: Edge, a: Vector3, b: Vector3)
  {
    && (if a.y > b.y then e.start == b && e.end == a else e.start == a && e.end == b)
    && e.maxY == Trunc(e.end.y)
    && e.currentX == e.start.x
    && SlopeSet(e)
  }

  /** `zIncr` is the depth change per row on the plane with normal `normal`; 0 when the
      plane is seen edge-on (`normal.z == 0`). */
  ghost predicate DepthSlope(zIncr: real, normal: Vector3)
  {
    (normal.z != 0.0 ==> zIncr * normal.z == -normal.y) && (normal.z == 0.0 ==> zIncr == 0.0)
  }

  /** An attribute starting at `a` whose per-row step reaches `b` after `dy` rows;
      the step is zero when `dy` is zero. */
  ghost predicate Interpolates(current: Vector3, delta: Vector3, a: Vector3, b: Vector3, dy: real)
  {
    current == a && (dy != 0.0 ==> Scale(delta, dy) == Sub(b, a)) && (dy == 0.0 ==> delta == Zero)
  }

  /** Every edge of a triangle has the same depth slope. */
  lemma DepthSlopeUnique(a: real, b: real, normal: Vector3)
    requires DepthSlope(a, normal) && DepthSlope(b, normal)
    ensures a == b
  {
    if normal.z != 0.0 {
      assert a == -normal.y / normal.z;
      assert b == -normal.y / normal.z;
    }
  }

  /** `makeStartBelowEnd(edge)` */
  method MakeStartBelowEnd(e: Edge) returns (r: Edge)
    ensures r.start.y <= r.end.y
    ensures if e.start.y > e.end.y then r.start == e.end && r.end == e.start
            else r.start == e.start && r.end == e.end
    ensures r.maxY == Trunc(r.end.y) && r.currentX == r.start.x
    ensures r == e.(start := r.start, end := r.end, maxY := r.maxY, currentX := r.currentX)
  {
    r := e;
    if r.start.y > r.end.y {
      r := r.(start := r.end, end := r.start);
    }
    r := r.(maxY := Trunc(r.end.y));
    r := r.(currentX := r.start.x);
  }

  /** `calculateXIncr(edge)` */
  method CalculateXIncr(e: Edge) returns (r: Edge)
    ensures SlopeSet(r)
    ensures r == e.(xIncr := r.xIncr)
  {
    var deltaY := e.end.y - e.start.y;
    var deltaX := e.end.x - e.start.x;
    if deltaY != 0.0 {
      r := e.(xIncr := deltaX / deltaY);
    } else {
      r := e.(xIncr := 0.0);
    }
  }

  /** `setEndPoint(edge, point)` */
  method SetEndPoint(e: Edge, point: Vector3) returns (r: Edge)
    ensures Spans(r, e.start, point)
    ensures r == e.(start := r.start, end := r.end, maxY := r.maxY, currentX := r.currentX, xIncr := r.xIncr)
  {
    r := e.(end := point);
    r := MakeStartBelowEnd(r);
    r := CalculateXIncr(r);
  }

  /** The cross product `calculateNormal` normalises: (v3 - v1) x (v2 - v1). */
  function FaceCross(tri: Triangle): Vector3
  {
    Cross(Sub(TriangleVertex(tri, 2), TriangleVertex(tri, 0)),
          Sub(TriangleVertex(tri, 1), TriangleVertex(tri, 0)))
  }

  /** `calculateNormal(edges, tri)`, with the magnitude of the cross product supplied as `mag`:
      the unit face normal, zero exactly for a degenerate triangle. */
  function CalculateNormal(tri: Triangle, mag: real): (n: Vector3)
    requires IsMagnitude(FaceCross(tri), mag)
    ensures n == Zero <==> FaceCross(tri) == Zero
    ensures mag > 0.0 ==> Scale(n, mag) == FaceCross(tri)
  {
    Normalize(FaceCross(tri), mag)
  }

  /** The face normal is perpendicular to both sides leaving vertex 0, so to the whole face. */
  lemma NormalPerpendicular(tri: Triangle, mag: real)
    requires IsMagnitude(FaceCross(tri), mag)
    ensures Dot(CalculateNormal(tri, mag), Sub(TriangleVertex(tri, 2), TriangleVertex(tri, 0))) == 0.0
    ensures Dot(CalculateNormal(tri, mag), Sub(TriangleVertex(tri, 1), TriangleVertex(tri, 0))) == 0.0
  {
    var n := CalculateNormal(tri, mag);
    if mag > 0.0 {
      ScaledDotZero(n, mag, Sub(TriangleVertex(tri, 2), TriangleVertex(tri, 0)));
      ScaledDotZero(n, mag, Sub(TriangleVertex(tri, 1), TriangleVertex(tri, 0)));
    }
  }

  /** If `n` scaled by a positive factor is perpendicular to `u`, so is `n`. */
  lemma ScaledDotZero(n: Vector3, s: real, u: Vector3)
    requires s > 0.0 && Dot(Scale(n, s), u) == 0.0
    ensures Dot(n, u) == 0.0
  {
    assert Dot(Scale(n, s), u) == s * Dot(n, u);
  }

  /** For the triangle (0,0,0), (1,0,0), (0,1,0) in that order the face normal is (0,0,-1). */
  lemma FaceNormalSign(tri: Triangle)
    requires TriangleVertex(tri, 0) == Zero
    requires TriangleVertex(tri, 1) == Vector3(1.0, 0.0, 0.0)
    requires TriangleVertex(tri, 2) == Vector3(0.0, 1.0, 0.0)
    ensures IsMagnitude(FaceCross(tri), 1.0)
    ensures CalculateNormal(tri, 1.0) == Vector3(0.0, 0.0, -1.0)
  {
    AxesFaceCross(tri);
    DownwardFaceNormal(tri);
  }

  /** A cross product of (0,0,-1) has length 1 and is its own normalisation. */
  lemma DownwardFaceNormal(tri: Triangle)
    requires FaceCross(tri) == Vector3(0.0, 0.0, -1.0)
    ensures IsMagnitude(FaceCross(tri), 1.0)
    ensures CalculateNormal(tri, 1.0) == Vector3(0.0, 0.0, -1.0)
  {
    NormalizeUnit(Vector3(0.0, 0.0, -1.0));
  }

  lemma AxesFaceCross(tri: Triangle)
    requires TriangleVertex(tri, 0) == Zero
    requires TriangleVertex(tri, 1) == Vector3(1.0, 0.0, 0.0)
    requires TriangleVertex(tri, 2) == Vector3(0.0, 1.0, 0.0)
    ensures FaceCross(tri) == Vector3(0.0, 0.0, -1.0)
  {
    assert Sub(TriangleVertex(tri, 2), TriangleVertex(tri, 0)) == Vector3(0.0, 1.0, 0.0);
    assert Sub(TriangleVertex(tri, 1), TriangleVertex(tri, 0)) == Vector3(1.0, 0.0, 0.0);
  }

  /** A vector of length 1 is its own normalisation. */
  lemma NormalizeUnit(v: Vector3)
    requires Dot(v, v) == 1.0
    ensures IsMagnitude(v, 1.0) && Normalize(v, 1.0) == v
  {
    assert Div(v, 1.0) == v;
  }

  /** `calculateZIncr(edge, normal)` */
  method CalculateZIncr(e: Edge, normal: Vector3) returns (r: Edge)
    ensures DepthSlope(r.zIncr, normal)
    ensures r == e.(zIncr := r.zIncr)
  {
    if normal.z != 0.0 {
      r := e.(zIncr := -normal.y / normal.z);
    } else {
      r := e.(zIncr := 0.0);
    }
  }

  /** `applyNormal(edges, tri)`: every edge gets the face's depth slope and starts at its
      start point's depth. */
  method ApplyNormal(edges: seq<Edge>, tri: Triangle, mag: real) returns (result: seq<Edge>)
    requires IsMagnitude(FaceCross(tri), mag)
    ensures |result| == |edges|
    ensures forall i :: 0 <= i < |edges| ==>
      && result[i] == edges[i].(zIncr := result[i].zIncr, currentZ := edges[i].start.z)
      && DepthSlope(result[i].zIncr, CalculateNormal(tri, mag))
  {
    var normal := CalculateNormal(tri, mag);
    result := edges;
    for i := 0 to |result|
      invariant |result| == |edges|
      invariant forall k :: 0 <= k < i ==>
        && result[k] == edges[k].(zIncr := result[k].zIncr, currentZ := edges[k].start.z)
        && DepthSlope(result[k].zIncr, normal)
      invariant forall k :: i <= k < |edges| ==> result[k] == edges[k]
    {
      var edge := CalculateZIncr(result[i], normal);
      edge := edge.(currentZ := edge.start.z);
      result := result[i := edge];
    }
  }

  /** The step that takes an attribute from `a` to `b` over `deltaY` rows (0 when `deltaY` is 0). */
  method AttributeStep(a: Vector3, b: Vector3, deltaY: real) returns (delta: Vector3)
    ensures Interpolates(a, delta, a, b, deltaY)
  {
    if deltaY != 0.0 {
      delta := Div(Sub(b, a), deltaY);
    } else {
      delta := Zero;
    }
  }

  /** `setupNormalInterpolation(edges, tri)`: each edge starts at its start vertex's normal and
      steps toward its end vertex's normal. */
  method SetupNormalInterpolation(edges: seq<Edge>, tri: Triangle, normalOf: VertexLookup)
    returns (result: seq<Edge>)
    ensures |result| == |edges|
    ensures forall i :: 0 <= i < |edges| ==>
      && result[i] == edges[i].(currentN := result[i].currentN, deltaN := result[i].deltaN)
      && Interpolates(result[i].currentN, result[i].deltaN, normalOf(tri, edges[i].start),
                      normalOf(tri, edges[i].end), edges[i].end.y - edges[i].start.y)
  {
    result := edges;
    for i := 0 to |result|
      invariant |result| == |edges|
      invariant forall k :: 0 <= k < i ==>
        && result[k] == edges[k].(currentN := result[k].currentN, deltaN := result[k].deltaN)
        && Interpolates(result[k].currentN, result[k].deltaN, normalOf(tri, edges[k].start),
                        normalOf(tri, edges[k].end), edges[k].end.y - edges[k].start.y)
      invariant forall k :: i <= k < |edges| ==> result[k] == edges[k]
    {
      var edge := result[i];
      var startNormal := normalOf(tri, edge.start);
      var endNormal := normalOf(tri, edge.end);
      var deltaN := AttributeStep(startNormal, endNormal, edge.end.y - edge.start.y);
      result := result[i := edge.(currentN := startNormal, deltaN := deltaN)];
    }
  }

  /** `setupUVInterpolation(edges, tri)`: the same for texture coordinates. */
  method SetupUVInterpolation(edges: seq<Edge>, tri: Triangle, uvOf: VertexLookup)
    returns (result: seq<Edge>)
    ensures |result| == |edges|
    ensures forall i :: 0 <= i < |edges| ==>
      && result[i] == edges[i].(currentUV := result[i].currentUV, deltaUV := result[i].deltaUV)
      && Interpolates(result[i].currentUV, result[i].deltaUV, uvOf(tri, edges[i].start),
                      uvOf(tri, edges[i].end), edges[i].end.y - edges[i].start.y)
  {
    result := edges;
    for i := 0 to |result|
      invariant |result| == |edges|
      invariant forall k :: 0 <= k < i ==>
        && result[k] == edges[k].(currentUV := result[k].currentUV, deltaUV := result[k].deltaUV)
        && Interpolates(result[k].currentUV, result[k].deltaUV, uvOf(tri, edges[k].start),
                        uvOf(tri, edges[k].end), edges[k].end.y - edges[k].start.y)
      invariant forall k :: i <= k < |edges| ==> result[k] == edges[k]
    {
      var edge := result[i];
      var uvStart := uvOf(tri, edge.start);
      var uvEnd := uvOf(tri, edge.end);
      var deltaUV := AttributeStep(uvStart, uvEnd, edge.end.y - edge.start.y);
      result := result[i := edge.(currentUV := uvStart, deltaUV := deltaUV)];
    }
  }

  /** Everything `makeEdges` promises about one finished edge joining `a` and `b`. */
  ghost predicate BuiltEdge(e: Edge, a: Vector3, b: Vector3, tri: Triangle, normal: Vector3,
                            normalOf: VertexLookup, uvOf: VertexLookup)
  {
    && Spans(e, a, b)
    && e.currentZ == e.start.z
    && DepthSlope(e.zIncr, normal)
    && Interpolates(e.currentN, e.deltaN, normalOf(tri, e.start), normalOf(tri, e.end), e.end.y - e.start.y)
    && Interpolates(e.currentUV, e.deltaUV, uvOf(tri, e.start), uvOf(tri, e.end), e.end.y - e.start.y)
  }

  /** The three setup passes of `makeEdges` leave a side's geometry alone, so a side that
      spans `a` and `b` comes out of them as a finished edge. */
  lemma FinishedSide(side: Edge, withZ: Edge, withN: Edge, withUV: Edge, a: Vector3, b: Vector3,
                     tri: Triangle, normal: Vector3, normalOf: VertexLookup, uvOf: VertexLookup)
    requires Spans(side, a, b)
    requires withZ == side.(zIncr := withZ.zIncr, currentZ := side.start.z)
    requires DepthSlope(withZ.zIncr, normal)
    requires withN == withZ.(currentN := withN.currentN, deltaN := withN.deltaN)
    requires Interpolates(withN.currentN, withN.deltaN, normalOf(tri, withZ.start),
                          normalOf(tri, withZ.end), withZ.end.y - withZ.start.y)
    requires withUV == withN.(currentUV := withUV.currentUV, deltaUV := withUV.deltaUV)
    requires Interpolates(withUV.currentUV, withUV.deltaUV, uvOf(tri, withN.start),
                          uvOf(tri, withN.end), withN.end.y - withN.start.y)
    ensures BuiltEdge(withUV, a, b, tri, normal, normalOf, uvOf)
  {
    assert withUV.start == side.start && withUV.end == side.end;
    assert withUV.xIncr == side.xIncr;
  }

  /** The side loop of `makeEdges`: side `i` starts at `points[i]` and ends at the next point,
      wrapping round to `points[0]`, each oriented from the lower row to the upper. */
  method MakeSides(points: seq<Vector3>) returns (sides: seq<Edge>)
    requires |points| == 3
    ensures |sides| == 3
    ensures Spans(sides[0], points[0], points[1])
    ensures Spans(sides[1], points[1], points[2])
    ensures Spans(sides[2], points[2], points[0])
  {
    sides := [];
    var i := 0;
    while i < |points|
      invariant 0 <= i <= 3 && |sides| == i
      invariant forall k :: 0 <= k < i && k < 2 ==> Spans(sides[k], points[k], points[k + 1])
      invariant i == 3 ==> sides[2].start == points[2]
    {
      sides := sides + [EdgeFrom(points[i])];
      if i + 1 != |points| {
        var back := SetEndPoint(sides[i], points[i + 1]);
        sides := sides[i := back];
      }
      i := i + 1;
    }
    var back := SetEndPoint(sides[2], points[0]);
    sides := sides[2 := back];
  }

  /** `makeEdges(tri)`: the three sides 0-1, 1-2 and 2-0, in that order, each oriented from
      the lower row to the upper, sharing one depth slope. */
  method MakeEdges(tri: Triangle, mag: real, normalOf: VertexLookup, uvOf: VertexLookup)
    returns (edges: seq<Edge>)
    requires IsMagnitude(FaceCross(tri), mag)
    ensures |edges| == 3
    ensures BuiltEdge(edges[0], TriangleVertex(tri, 0), TriangleVertex(tri, 1), tri, CalculateNormal(tri, mag), normalOf, uvOf)
    ensures BuiltEdge(edges[1], TriangleVertex(tri, 1), TriangleVertex(tri, 2), tri, CalculateNormal(tri, mag), normalOf, uvOf)
    ensures BuiltEdge(edges[2], TriangleVertex(tri, 2), TriangleVertex(tri, 0), tri, CalculateNormal(tri, mag), normalOf, uvOf)
    ensures edges[0].zIncr == edges[1].zIncr == edges[2].zIncr
  {
    var points := [TriangleVertex(tri, 0), TriangleVertex(tri, 1), TriangleVertex(tri, 2)];
    var sides := MakeSides(points);
    var withZ := ApplyNormal(sides, tri, mag);
    var withN := SetupNormalInterpolation(withZ, tri, normalOf);
    edges := SetupUVInterpolation(withN, tri, uvOf);
    var normal := CalculateNormal(tri, mag);
    FinishedSide(sides[0], withZ[0], withN[0], edges[0], points[0], points[1], tri, normal, normalOf, uvOf);
    FinishedSide(sides[1], withZ[1], withN[1], edges[1], points[1], points[2], tri, normal, normalOf, uvOf);
    FinishedSide(sides[2], withZ[2], withN[2], edges[2], points[2], points[0], tri, normal, normalOf, uvOf);
    DepthSlopeUnique(edges[0].zIncr, edges[1].zIncr, normal);
    DepthSlopeUnique(edges[1].zIncr, edges[2].zIncr, normal);
  }
}
