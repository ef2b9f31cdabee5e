/** scan/edge.hh and scan/triangle.hh: the plain records the scanline fill works on. */
module EdgeModel {
  import opened Vector3Util

  /** One side of a triangle with the running values the scanline walk advances row by row. */
  datatype Edge = Edge(
    start: Vector3, end: Vector3,
    maxY: int,
    currentX: real, xIncr: real,
    currentZ: real, zIncr: real,
    currentN: Vector3, deltaN: Vector3,
    currentUV: Vector3, deltaUV: Vector3)

  /** `Edge{ p }`: aggregate initialisation from a start point, every other member zero. */
  function EdgeFrom(start: Vector3): (e: Edge)
    ensures e.start == start && e.end == Zero && e.maxY == 0
    ensures e.currentX == e.xIncr == e.currentZ == e.zIncr == 0.0
    ensures e.currentN == e.deltaN == e.currentUV == e.deltaUV == Zero
  {
    Edge(start, Zero, 0, 0.0, 0.0, 0.0, 0.0, Zero, Zero, Zero, Zero)
  }

  /** A scene vertex: position, vertex normal and texture coordinates. */
  datatype Vertex = Vertex(x: real, y: real, z: real, nx: real, ny: real, nz: real, u: real, v: real)

  const Origin := Vertex(0.0, 0.0, 0.0, 0.0, 0.0, 0.0, 0.0, 0.0)

  type Vertices = s: seq<Vertex> | |s| == 3 witness [Origin, Origin, Origin]

  datatype Triangle = Triangle(
    whichTexture: int,
    v: Vertices,
    kamb: real, kdiff: real, kspec: real,
    shininess: int)

  /** `getTriangleVertex(tri, i)`: the position of vertex `i`. */
  function TriangleVertex(tri: Triangle, i: nat): (p: Vector3)
    requires i < 3
    ensures p.x == tri.v[i].x && p.y == tri.v[i].y && p.z == tri.v[i].z
  {
    Vector3(tri.v[i].x, tri.v[i].y, tri.v[i].z)
  }

  /** A per-vertex attribute looked up from a triangle by a vertex position
      (`getVertexNormFromTriangle`, `getVertexUVsFromTriangle`). */
  type VertexLookup = (Triangle, Vector3) -> Vector3
}
