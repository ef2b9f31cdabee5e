/** The active edge table of scan/activeEdgeTable.hh: one bucket of edges per scanline row,
    indexed by the row an edge starts on, relative to the lowest starting row. */
module EdgeTable {
  import opened Conversions
  import opened Vector2Util
  import opened EdgeModel
  import opened EdgeSetup

  /** The bucket an edge goes to: `edge.start.y - first`, converted to an index by truncation. */
  function BucketIndex(e: Edge, first: int): (b: int)
    ensures first as real <= e.start.y ==>
      0 <= b && (first + b) as real <= e.start.y < (first + b + 1) as real
  {
    Trunc(e.start.y - first as real)
  }

  class ActiveEdgeTable {
    /** One list of edges per row of `rangeY`, from the lowest up. */
    var edgeLists: seq<seq<Edge>>
    /** The bucket `next` last returned; `|edgeLists|` stands for `edgeLists.end()`. */
    var cursor: nat
    /** The first and last row the table covers. */
    const rangeY: Vector2

    ghost predicate Valid()
      reads this
    {
      |edgeLists| == rangeY.y - rangeY.x + 1 && cursor <= |edgeLists|
    }

    /** The cursor is at the "not started" position. */
    predicate AtEnd()
      reads this
    {
      cursor == |edgeLists|
    }

    /** `ActiveEdgeTable(rangeY)`: one empty bucket per row, cursor not started. */
    constructor (rangeY: Vector2)
      requires rangeY.y - rangeY.x + 1 >= 0
      ensures Valid() && AtEnd()
      ensures this.rangeY == rangeY
      ensures forall b :: 0 <= b < |edgeLists| ==> edgeLists[b] == []
    {
      this.rangeY := rangeY;
      edgeLists := seq(rangeY.y - rangeY.x + 1, _ => []);
      cursor := rangeY.y - rangeY.x + 1;
    }

    /** `add(edge)`: appends the edge to the back of its row's bucket. */
    method Add(edge: Edge)
      requires Valid()
      requires 0 <= BucketIndex(edge, rangeY.x) < |edgeLists|
      modifies this`edgeLists
      ensures Valid()
      ensures |edgeLists| == |old(edgeLists)|
      ensures edgeLists[BucketIndex(edge, rangeY.x)] == old(edgeLists)[BucketIndex(edge, rangeY.x)] + [edge]
      ensures forall b :: 0 <= b < |edgeLists| && b != BucketIndex(edge, rangeY.x) ==>
        edgeLists[b] == old(edgeLists)[b]
    {
      var b := BucketIndex(edge, rangeY.x);
      edgeLists := edgeLists[b := edgeLists[b] + [edge]];
    }

    /** `next()`: the first call returns bucket 0, every later one the bucket after the
        previous; stepping past the last bucket is not allowed. */
    method Next() returns (list: seq<Edge>)
      requires Valid()
      requires if AtEnd() then |edgeLists| > 0 else cursor + 1 < |edgeLists|
      modifies this`cursor
      ensures Valid() && !AtEnd()
      ensures cursor == if old(cursor) == |edgeLists| then 0 else old(cursor) + 1
      ensures list == edgeLists[cursor]
    {
      if cursor == |edgeLists| {
        cursor := 0;
      } else {
        cursor := cursor + 1;
      }
      list := edgeLists[cursor];
    }
  }

  /** The smallest `start.y` of a non-empty list of edges. */
  function MinStartY(edges: seq<Edge>): (m: real)
    requires |edges| > 0
    ensures exists i :: 0 <= i < |edges| && edges[i].start.y == m
    ensures forall i :: 0 <= i < |edges| ==> m <= edges[i].start.y
  {
    if |edges| == 1 then edges[0].start.y
    else
      var rest := MinStartY(edges[..|edges| - 1]);
      var last := edges[|edges| - 1].start.y;
      assert forall i :: 0 <= i < |edges| - 1 ==> edges[..|edges| - 1][i] == edges[i];
      if last < rest then last else rest
  }

  /** `findMinYFromEdges(edges)`: the lowest starting row, i.e. the smallest truncated
      `start.y`, attained by some edge. */
  function FindMinYFromEdges(edges: seq<Edge>): (y: int)
    requires |edges| > 0
    ensures exists i :: 0 <= i < |edges| && Trunc(edges[i].start.y) == y
    ensures forall i :: 0 <= i < |edges| ==> y <= Trunc(edges[i].start.y)
  {
    var m := MinStartY(edges);
    forall i | 0 <= i < |edges|
      ensures Trunc(m) <= Trunc(edges[i].start.y)
    {
      TruncMonotone(m, edges[i].start.y);
    }
    Trunc(m)
  }

  /** `findMaxYFromEdges(edges)`: the largest `maxY` of the edges, attained by some edge. */
  function FindMaxYFromEdges(edges: seq<Edge>): (y: int)
    requires |edges| > 0
    ensures exists i :: 0 <= i < |edges| && edges[i].maxY == y
    ensures forall i :: 0 <= i < |edges| ==> edges[i].maxY <= y
  {
    if |edges| == 1 then edges[0].maxY
    else
      var rest := FindMaxYFromEdges(edges[..|edges| - 1]);
      var last := edges[|edges| - 1].maxY;
      assert forall i :: 0 <= i < |edges| - 1 ==> edges[..|edges| - 1][i] == edges[i];
      if last > rest then last else rest
  }

  /** Every edge ends no higher than it starts, as `makeStartBelowEnd` arranges. */
  ghost predicate FitsTable(edges: seq<Edge>)
  {
    forall i :: 0 <= i < |edges| ==> Trunc(edges[i].start.y) <= edges[i].maxY
  }

  /** An edge built by `setEndPoint` ends no higher than it starts. */
  lemma SpanFits(e: Edge, a: Vector3Util.Vector3, b: Vector3Util.Vector3)
    requires Spans(e, a, b)
    ensures Trunc(e.start.y) <= e.maxY
  {
    TruncMonotone(e.start.y, e.end.y);
  }

  /** Three edges that each fit make a list that fits. */
  lemma ThreeFit(edges: seq<Edge>)
    requires |edges| == 3
    requires Trunc(edges[0].start.y) <= edges[0].maxY
    requires Trunc(edges[1].start.y) <= edges[1].maxY
    requires Trunc(edges[2].start.y) <= edges[2].maxY
    ensures FitsTable(edges)
  {
  }

  /** An edge starting at or above the lowest start `minStart` lands in a bucket of the
      table `[Trunc(minStart), maxY]`, despite truncation toward zero on both sides of 0. */
  lemma BucketIndexInRange(e: Edge, minStart: real, maxY: int)
    requires minStart <= e.start.y
    requires Trunc(e.start.y) <= e.maxY <= maxY
    ensures 0 <= BucketIndex(e, Trunc(minStart)) <= maxY - Trunc(minStart)
  {
    var first, x := Trunc(minStart), e.start.y;
    TruncMonotone(minStart, x);
    var t := Trunc(x - first as real);
    if x - first as real >= 0.0 {
      assert (t + first) as real <= x;
      if x < 0.0 {
        assert t + first <= Trunc(x);
      } else {
        assert x < Trunc(x) as real + 1.0;
        assert t + first <= Trunc(x);
      }
    } else {
      assert x - first as real > -1.0;
    }
  }

  /** The edges of `edges` in bucket `b`, in list order: what `makeActiveEdgeTable` puts there. */
  function Bucket(edges: seq<Edge>, first: int, b: int): (r: seq<Edge>)
    ensures |r| <= |edges|
    ensures forall i :: 0 <= i < |r| ==> BucketIndex(r[i], first) == b
  {
    if |edges| == 0 then []
    else
      var last := edges[|edges| - 1];
      Bucket(edges[..|edges| - 1], first, b) + (if BucketIndex(last, first) == b then [last] else [])
  }

  /** Every edge of a fitting list has a bucket in the table built from that list. */
  lemma EdgeInTable(edges: seq<Edge>, i: nat)
    requires i < |edges| && FitsTable(edges)
    ensures 0 <= BucketIndex(edges[i], FindMinYFromEdges(edges))
    ensures BucketIndex(edges[i], FindMinYFromEdges(edges)) <= FindMaxYFromEdges(edges) - FindMinYFromEdges(edges)
  {
    BucketIndexInRange(edges[i], MinStartY(edges), FindMaxYFromEdges(edges));
  }

  /** Taking one more edge into account appends it to its own bucket and to no other. */
  lemma BucketGrows(edges: seq<Edge>, i: nat, first: int, b: int)
    requires i < |edges|
    ensures Bucket(edges[..i + 1], first, b) ==
      Bucket(edges[..i], first, b) + (if BucketIndex(edges[i], first) == b then [edges[i]] else [])
  {
    assert edges[..i + 1][..i] == edges[..i];
  }

  /** An edge is in bucket `b` exactly when it is one of the edges and its index is `b`. */
  lemma {:induction false} BucketMembership(edges: seq<Edge>, first: int, b: int, e: Edge)
    ensures e in Bucket(edges, first, b) <==> e in edges && BucketIndex(e, first) == b
  {
    if |edges| > 0 {
      var init := edges[..|edges| - 1];
      BucketMembership(init, first, b, e);
      assert edges == init + [edges[|edges| - 1]];
    }
  }

  /** `makeActiveEdgeTable(edges)`: a table covering the rows from the lowest start to the
      highest `maxY`, with every edge appended to its own bucket in list order. */
  method MakeActiveEdgeTable(edges: seq<Edge>) returns (table: ActiveEdgeTable)
    requires |edges| > 0 && FitsTable(edges)
    ensures fresh(table) && table.Valid() && table.AtEnd()
    ensures table.rangeY == Vector2(FindMinYFromEdges(edges), FindMaxYFromEdges(edges))
    ensures forall b :: 0 <= b < |table.edgeLists| ==>
      table.edgeLists[b] == Bucket(edges, FindMinYFromEdges(edges), b)
  {
    var maxY := FindMaxYFromEdges(edges);
    var minY := FindMinYFromEdges(edges);
    assert minY <= Trunc(edges[0].start.y) <= edges[0].maxY <= maxY;
    table := new ActiveEdgeTable(Vector2(minY, maxY));
    for i := 0 to |edges|
      invariant table.Valid() && table.AtEnd()
      invariant table.rangeY == Vector2(minY, maxY)
      invariant forall b :: 0 <= b < |table.edgeLists| ==> table.edgeLists[b] == Bucket(edges[..i], minY, b)
    {
      EdgeInTable(edges, i);
      table.Add(edges[i]);
      forall b | 0 <= b < |table.edgeLists|
        ensures table.edgeLists[b] == Bucket(edges[..i + 1], minY, b)
      {
        BucketGrows(edges, i, minY, b);
      }
    }
    assert edges[..|edges|] == edges;
  }
}
