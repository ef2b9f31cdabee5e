/** `scanfill` of main.cc: builds a triangle's edges and edge table, then walks the rows,
    drawing a depth-tested span between each pair of active edges. */
module ScanFill {
  import opened Conversions
  import opened Vector3Util
  import opened ColorModel
  import opened EdgeModel
  import opened EdgeSetup
  import opened EdgeTable
  import opened EdgeList
  import opened Raster

  /** How a fill ended. The error cases are the points where the C++ code would index past
      the edge list, write outside the buffers, or divide by a zero `normal.z`. */
  datatype FillStatus =
    | Filled
    | OddEdgeCount(row: int)
    | SpanOutsideImage(row: int)
    | EdgeOnNormal(row: int)

  /** A span `drawScanLine` can draw: empty, or inside the image with a usable depth slope. */
  predicate Drawable(y: int, startX: int, endX: int, normal: Vector3)
  {
    startX < endX - 1 ==> 0 <= startX && endX - 1 <= ImageW && 0 <= y < ImageH && normal.z != 0.0
  }

  /** Moving no deeper is transitive, so it holds across any number of spans. */
  lemma NoDeeperTransitive(a: real, b: real, c: real)
    requires NoDeeper(b, a) && NoDeeper(c, b)
    ensures NoDeeper(c, a)
  {
  }

  /** One `drawScanLine` call seen from `scanfill`: each channel is kept or becomes the shaded
      colour, no depth moves farther away, and nothing outside the span changes. */
  method DrawSpan(fb: array3<real>, zb: array2<real>, y: int, startX: int, endX: int, startZ: int,
                  normal: Vector3, lighting: Vector3, color: Color)
    requires IsFramebuffer(fb) && IsZbuffer(zb) && |color.rgb| >= 3
    requires Drawable(y, startX, endX, normal)
    modifies fb, zb
    ensures forall i, j, k :: 0 <= i < ImageH && 0 <= j < ImageW && 0 <= k < 3 ==>
      fb[i, j, k] == old(fb[i, j, k]) || fb[i, j, k] == Channel(color.rgb, ClampVector(0, 1, lighting), k)
    ensures forall i, j :: 0 <= i < ImageH && 0 <= j < ImageW ==> NoDeeper(zb[i, j], old(zb[i, j]))
    ensures forall i, j :: 0 <= i < ImageH && 0 <= j < ImageW && !InSpan(i, j, y, startX, endX) ==>
      zb[i, j] == old(zb[i, j])
    ensures forall i, j, k :: 0 <= i < ImageH && 0 <= j < ImageW && 0 <= k < 3 && !InSpan(i, j, y, startX, endX) ==>
      fb[i, j, k] == old(fb[i, j, k])
  {
    DrawScanLine(fb, zb, y, startX, endX, startZ, normal, lighting, color);
  }

  /** The pairs `(edges[p], edges[p + 1])` with even `p` below `n` exist and can be drawn on row `y`. */
  predicate PairsDrawable(edges: seq<Edge>, y: int, normal: Vector3, n: int)
  {
    forall p :: 0 <= p < n && p % 2 == 0 ==>
      p + 1 < |edges| && Drawable(y, Trunc(edges[p].currentX), Trunc(edges[p + 1].currentX), normal)
  }

  /** Drawing the pair at `n` extends the drawable pairs by one. */
  lemma PairsDrawableStep(edges: seq<Edge>, y: int, normal: Vector3, n: int)
    requires 0 <= n && n % 2 == 0 && n + 1 < |edges| && PairsDrawable(edges, y, normal, n)
    requires Drawable(y, Trunc(edges[n].currentX), Trunc(edges[n + 1].currentX), normal)
    ensures PairsDrawable(edges, y, normal, n + 2)
  {
    forall p | 0 <= p < n + 2 && p % 2 == 0
      ensures p + 1 < |edges| && Drawable(y, Trunc(edges[p].currentX), Trunc(edges[p + 1].currentX), normal)
    {
      if p >= n {
        assert p == n;
      }
    }
  }

  /** Cell `(i, j)` lies in the span drawn between edges `p` and `p + 1` on row `y`, for some
      even `p` below `n`. */
  ghost predicate InRowSpans(edges: seq<Edge>, y: int, n: int, i: int, j: int)
  {
    exists p :: 0 <= p < n && p % 2 == 0 && p + 1 < |edges| &&
      InSpan(i, j, y, Trunc(edges[p].currentX), Trunc(edges[p + 1].currentX))
  }

  /** The spans up to pair `n + 2` are those up to `n` and the one between edges `n` and `n + 1`. */
  lemma InRowSpansStep(edges: seq<Edge>, y: int, n: int, i: int, j: int)
    requires 0 <= n && n % 2 == 0 && n + 1 < |edges|
    ensures InRowSpans(edges, y, n + 2, i, j) <==>
      InRowSpans(edges, y, n, i, j) || InSpan(i, j, y, Trunc(edges[n].currentX), Trunc(edges[n + 1].currentX))
  {
    if InRowSpans(edges, y, n + 2, i, j) {
      var p :| 0 <= p < n + 2 && p % 2 == 0 && p + 1 < |edges| &&
        InSpan(i, j, y, Trunc(edges[p].currentX), Trunc(edges[p + 1].currentX));
      if p != n {
        assert p < n;
      }
    }
  }

  /** Every span lies on the one buffer row of `y`. */
  lemma InRowSpansOnRow(edges: seq<Edge>, y: int, n: int, i: int, j: int)
    requires InRowSpans(edges, y, n, i, j)
    ensures i == FlipRow(y)
  {
  }

  /** The span loop of `scanfill` for one row: draws between edges `i` and `i + 1` for every
      even `i`, stopping at the first pair that is missing or cannot be drawn. Only cells in
      those spans change. A row that completes had an even number of edges and only drawable
      spans; a row that stops reports itself. */
  method DrawSpans(fb: array3<real>, zb: array2<real>, edgeList: ActiveEdgeList, normal: Vector3,
                   lighting: Vector3, color: Color) returns (status: FillStatus)
    requires IsFramebuffer(fb) && IsZbuffer(zb) && edgeList.Valid() && |color.rgb| >= 3
    modifies fb, zb
    ensures forall i, j, k :: 0 <= i < ImageH && 0 <= j < ImageW && 0 <= k < 3 ==>
      fb[i, j, k] == old(fb[i, j, k]) || fb[i, j, k] == Channel(color.rgb, ClampVector(0, 1, lighting), k)
    ensures forall i, j :: 0 <= i < ImageH && 0 <= j < ImageW ==> NoDeeper(zb[i, j], old(zb[i, j]))
    ensures forall i, j ::
      (0 <= i < ImageH && 0 <= j < ImageW && !InRowSpans(edgeList.edges, edgeList.currentY, |edgeList.edges|, i, j)) ==>
        zb[i, j] == old(zb[i, j])
    ensures forall i, j, k ::
      (0 <= i < ImageH && 0 <= j < ImageW && 0 <= k < 3 &&
       !InRowSpans(edgeList.edges, edgeList.currentY, |edgeList.edges|, i, j)) ==>
        fb[i, j, k] == old(fb[i, j, k])
    ensures status.OddEdgeCount? ==> |edgeList.edges| % 2 == 1
    ensures |edgeList.edges| % 2 == 0 ==> !status.OddEdgeCount?
    ensures !status.Filled? ==> status.row == edgeList.currentY
    ensures status == Filled ==> |edgeList.edges| % 2 == 0
    ensures status == Filled ==> PairsDrawable(edgeList.edges, edgeList.currentY, normal, |edgeList.edges| - 1)
  {
    var edges := edgeList.edges;
    var y := edgeList.GetCurrentY();
    var i := 0;
    while i < edgeList.Size()
      invariant 0 <= i && i % 2 == 0 && (i > 0 ==> i <= |edges|)
      invariant PairsDrawable(edges, y, normal, i)
      invariant forall r, c, k :: 0 <= r < ImageH && 0 <= c < ImageW && 0 <= k < 3 ==>
        fb[r, c, k] == old(fb[r, c, k]) || fb[r, c, k] == Channel(color.rgb, ClampVector(0, 1, lighting), k)
      invariant forall r, c :: 0 <= r < ImageH && 0 <= c < ImageW ==> NoDeeper(zb[r, c], old(zb[r, c]))
      invariant forall r, c :: 0 <= r < ImageH && 0 <= c < ImageW && !InRowSpans(edges, y, i, r, c) ==>
        zb[r, c] == old(zb[r, c])
      invariant forall r, c, k :: 0 <= r < ImageH && 0 <= c < ImageW && 0 <= k < 3 && !InRowSpans(edges, y, i, r, c) ==>
        fb[r, c, k] == old(fb[r, c, k])
    {
      if i + 1 >= edgeList.Size() {
        assert i + 1 == |edges|;
        return OddEdgeCount(y);
      }
      var startX := Trunc(edgeList.Get(i).currentX);
      var endX := Trunc(edgeList.Get(i + 1).currentX);
      var startZ := Trunc(edgeList.Get(i).currentZ);
      if startX < endX - 1 && !(0 <= startX && endX - 1 <= ImageW && 0 <= y < ImageH) {
        return SpanOutsideImage(y);
      }
      if startX < endX - 1 && normal.z == 0.0 {
        return EdgeOnNormal(y);
      }
      PairsDrawableStep(edges, y, normal, i);
      label before:
      DrawSpan(fb, zb, y, startX, endX, startZ, normal, lighting, color);
      forall r, c | 0 <= r < ImageH && 0 <= c < ImageW
        ensures NoDeeper(zb[r, c], old(zb[r, c]))
      {
        NoDeeperTransitive(old(zb[r, c]), old@before(zb[r, c]), zb[r, c]);
      }
      forall r, c | 0 <= r < ImageH && 0 <= c < ImageW
        ensures InRowSpans(edges, y, i + 2, r, c) <==>
          InRowSpans(edges, y, i, r, c) || InSpan(r, c, y, startX, endX)
      {
        InRowSpansStep(edges, y, i, r, c);
      }
      i := i + 2;
    }
    status := Filled;
  }

  /** Buffer row `i` shows one of the `count` rows after `first`. */
  predicate RowAfter(i: int, first: int, count: int)
  {
    first < FlipRow(i) <= first + count
  }

  /** The row loop of `scanfill`: one `add` per bucket of the table, in order, each followed
      by the row's spans; stops at the first row that cannot be drawn, and reports it. Only
      the rows the list passes through change. */
  method FillRows(fb: array3<real>, zb: array2<real>, buckets: seq<seq<Edge>>, edgeList: ActiveEdgeList,
                  normal: Vector3, lighting: Vector3, color: Color) returns (status: FillStatus)
    requires IsFramebuffer(fb) && IsZbuffer(zb) && edgeList.Valid() && |color.rgb| >= 3
    modifies fb, zb, edgeList
    ensures edgeList.Valid()
    ensures status == Filled ==> edgeList.currentY == old(edgeList.currentY) + |buckets|
    ensures status != Filled ==>
      old(edgeList.currentY) < edgeList.currentY <= old(edgeList.currentY) + |buckets| &&
      status.row == edgeList.currentY
    ensures forall i, j, k :: 0 <= i < ImageH && 0 <= j < ImageW && 0 <= k < 3 ==>
      fb[i, j, k] == old(fb[i, j, k]) || fb[i, j, k] == Channel(color.rgb, ClampVector(0, 1, lighting), k)
    ensures forall i, j :: 0 <= i < ImageH && 0 <= j < ImageW ==> NoDeeper(zb[i, j], old(zb[i, j]))
    ensures forall i, j :: 0 <= i < ImageH && 0 <= j < ImageW && !RowAfter(i, old(edgeList.currentY), |buckets|) ==>
      zb[i, j] == old(zb[i, j])
    ensures forall i, j, k ::
      (0 <= i < ImageH && 0 <= j < ImageW && 0 <= k < 3 && !RowAfter(i, old(edgeList.currentY), |buckets|)) ==>
        fb[i, j, k] == old(fb[i, j, k])
  {
    for b := 0 to |buckets|
      invariant edgeList.Valid() && edgeList.currentY == old(edgeList.currentY) + b
      invariant forall i, j, k :: 0 <= i < ImageH && 0 <= j < ImageW && 0 <= k < 3 ==>
        fb[i, j, k] == old(fb[i, j, k]) || fb[i, j, k] == Channel(color.rgb, ClampVector(0, 1, lighting), k)
      invariant forall i, j :: 0 <= i < ImageH && 0 <= j < ImageW ==> NoDeeper(zb[i, j], old(zb[i, j]))
      invariant forall i, j :: 0 <= i < ImageH && 0 <= j < ImageW && !RowAfter(i, old(edgeList.currentY), b) ==>
        zb[i, j] == old(zb[i, j])
      invariant forall i, j, k ::
        (0 <= i < ImageH && 0 <= j < ImageW && 0 <= k < 3 && !RowAfter(i, old(edgeList.currentY), b)) ==>
          fb[i, j, k] == old(fb[i, j, k])
    {
      edgeList.Add(buckets[b]);
      label before:
      status := DrawSpans(fb, zb, edgeList, normal, lighting, color);
      forall i, j | 0 <= i < ImageH && 0 <= j < ImageW
        ensures NoDeeper(zb[i, j], old(zb[i, j]))
      {
        NoDeeperTransitive(old(zb[i, j]), old@before(zb[i, j]), zb[i, j]);
      }
      forall i, j | 0 <= i < ImageH && 0 <= j < ImageW && InRowSpans(edgeList.edges, edgeList.currentY, |edgeList.edges|, i, j)
        ensures RowAfter(i, old(edgeList.currentY), b + 1)
      {
        InRowSpansOnRow(edgeList.edges, edgeList.currentY, |edgeList.edges|, i, j);
      }
      if status != Filled {
        return;
      }
    }
    status := Filled;
  }

  /** The lowest Y of the triangle's vertices. */
  function LowestY(tri: Triangle): (m: real)
    ensures forall k :: 0 <= k < 3 ==> m <= tri.v[k].y
    ensures exists k :: 0 <= k < 3 && m == tri.v[k].y
  {
    var a, b, c := tri.v[0].y, tri.v[1].y, tri.v[2].y;
    if a <= b && a <= c then a else if b <= c then b else c
  }

  /** The highest Y of the triangle's vertices. */
  function HighestY(tri: Triangle): (m: real)
    ensures forall k :: 0 <= k < 3 ==> tri.v[k].y <= m
    ensures exists k :: 0 <= k < 3 && m == tri.v[k].y
  {
    var a, b, c := tri.v[0].y, tri.v[1].y, tri.v[2].y;
    if a >= b && a >= c then a else if b >= c then b else c
  }

  /** A side between two points in `[low, high]` starts and ends in that range. */
  lemma SideWithin(e: Edge, a: Vector3, b: Vector3, low: real, high: real)
    requires Spans(e, a, b)
    requires low <= a.y <= high && low <= b.y <= high
    ensures low <= e.start.y && e.maxY <= Trunc(high)
  {
    TruncMonotone(e.end.y, high);
  }

  /** Three edges that start no lower than `low` and end no higher than `high` make a table whose
      rows lie between the two. */
  lemma TableWithin(edges: seq<Edge>, low: real, high: real)
    requires |edges| == 3
    requires low <= edges[0].start.y && edges[0].maxY <= Trunc(high)
    requires low <= edges[1].start.y && edges[1].maxY <= Trunc(high)
    requires low <= edges[2].start.y && edges[2].maxY <= Trunc(high)
    ensures Trunc(low) <= FindMinYFromEdges(edges)
    ensures FindMaxYFromEdges(edges) <= Trunc(high)
  {
    var i :| 0 <= i < |edges| && Trunc(edges[i].start.y) == FindMinYFromEdges(edges);
    TruncMonotone(low, edges[i].start.y);
  }

  /** The sides `makeEdges` builds fit an edge table. */
  lemma TriangleFits(edges: seq<Edge>, tri: Triangle)
    requires |edges| == 3
    requires Spans(edges[0], TriangleVertex(tri, 0), TriangleVertex(tri, 1))
    requires Spans(edges[1], TriangleVertex(tri, 1), TriangleVertex(tri, 2))
    requires Spans(edges[2], TriangleVertex(tri, 2), TriangleVertex(tri, 0))
    ensures FitsTable(edges)
  {
    SpanFits(edges[0], TriangleVertex(tri, 0), TriangleVertex(tri, 1));
    SpanFits(edges[1], TriangleVertex(tri, 1), TriangleVertex(tri, 2));
    SpanFits(edges[2], TriangleVertex(tri, 2), TriangleVertex(tri, 0));
    ThreeFit(edges);
  }

  /** Each side `makeEdges` builds starts no lower than the triangle's lowest vertex and ends
      no higher than the row of its highest. */
  lemma TriangleRows(edges: seq<Edge>, tri: Triangle)
    requires |edges| == 3
    requires Spans(edges[0], TriangleVertex(tri, 0), TriangleVertex(tri, 1))
    requires Spans(edges[1], TriangleVertex(tri, 1), TriangleVertex(tri, 2))
    requires Spans(edges[2], TriangleVertex(tri, 2), TriangleVertex(tri, 0))
    ensures LowestY(tri) <= edges[0].start.y && edges[0].maxY <= Trunc(HighestY(tri))
    ensures LowestY(tri) <= edges[1].start.y && edges[1].maxY <= Trunc(HighestY(tri))
    ensures LowestY(tri) <= edges[2].start.y && edges[2].maxY <= Trunc(HighestY(tri))
  {
    var low, high := LowestY(tri), HighestY(tri);
    SideWithin(edges[0], TriangleVertex(tri, 0), TriangleVertex(tri, 1), low, high);
    SideWithin(edges[1], TriangleVertex(tri, 1), TriangleVertex(tri, 2), low, high);
    SideWithin(edges[2], TriangleVertex(tri, 2), TriangleVertex(tri, 0), low, high);
  }

  /** `scanfill(tri)`. The colour is a parameter `rgb` and the summed light `lighting`;
      `mag` is the magnitude of the face's cross product and `normalOf`/`uvOf` the vertex
      attribute lookups. Every frame-buffer channel ends up either as it was or as the
      shaded colour, and no depth moves farther away (short of a negative depth). */
  method Scanfill(fb: array3<real>, zb: array2<real>, tri: Triangle, rgb: seq<real>, lighting: Vector3,
                  mag: real, normalOf: VertexLookup, uvOf: VertexLookup) returns (status: FillStatus)
    requires IsFramebuffer(fb) && IsZbuffer(zb) && |rgb| == 3
    requires IsMagnitude(FaceCross(tri), mag)
    modifies fb, zb
    ensures forall i, j, k :: 0 <= i < ImageH && 0 <= j < ImageW && 0 <= k < 3 ==>
      fb[i, j, k] == old(fb[i, j, k]) || fb[i, j, k] == Channel(rgb, ClampVector(0, 1, lighting), k)
    ensures forall i, j :: 0 <= i < ImageH && 0 <= j < ImageW ==> NoDeeper(zb[i, j], old(zb[i, j]))
    ensures forall i, j ::
      (0 <= i < ImageH && 0 <= j < ImageW &&
       !(Trunc(LowestY(tri)) < FlipRow(i) <= Trunc(HighestY(tri)) + 1)) ==>
        zb[i, j] == old(zb[i, j])
    ensures forall i, j, k ::
      (0 <= i < ImageH && 0 <= j < ImageW && 0 <= k < 3 &&
       !(Trunc(LowestY(tri)) < FlipRow(i) <= Trunc(HighestY(tri)) + 1)) ==>
        fb[i, j, k] == old(fb[i, j, k])
  {
    var random := new Color(rgb);
    random.SetIntensity(Vector3(1.0, 1.0, 1.0));
    var edges := MakeEdges(tri, mag, normalOf, uvOf);
    TriangleFits(edges, tri);
    TriangleRows(edges, tri);
    TableWithin(edges, LowestY(tri), HighestY(tri));
    var edgeTable := MakeActiveEdgeTable(edges);
    var edgeList := new ActiveEdgeList(FindMinYFromEdges(edges));
    var normal := CalculateNormal(tri, mag);
    status := FillRows(fb, zb, edgeTable.edgeLists, edgeList, normal, lighting, random);
  }
}
