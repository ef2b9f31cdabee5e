/** The active edge list of scan/activeEdgeList.hh: the edges crossing the current scanline,
    kept in order of their running X. */
module EdgeList {
  import opened Vector3Util
  import opened EdgeModel
  import opened EdgeSetup

  /** An edge that no longer crosses row `y`, or a horizontal one: `prune` drops it. */
  predicate Expired(e: Edge, y: int)
    ensures !Expired(e, y) ==> e.start.y != e.end.y && y as real <= e.end.y
  {
    e.end.y < y as real || e.start.y == e.end.y
  }

  /** Rows only move down, so an edge `prune` drops would be dropped at every later row too. */
  lemma ExpiredStays(e: Edge, y: int, later: int)
    requires Expired(e, y) && y <= later
    ensures Expired(e, later)
  {
  }

  /** The edges of `s` that survive pruning at row `y`, in their original order. */
  function Pruned(s: seq<Edge>, y: int): (r: seq<Edge>)
    ensures |r| <= |s|
    ensures forall i :: 0 <= i < |r| ==> !Expired(r[i], y)
  {
    if |s| == 0 then []
    else
      var last := s[|s| - 1];
      Pruned(s[..|s| - 1], y) + (if Expired(last, y) then [] else [last])
  }

  /** One row's step of an edge: each running value moves by its increment; nothing else changes. */
  function Advanced(e: Edge): (r: Edge)
    ensures r.start == e.start && r.end == e.end && r.maxY == e.maxY
    ensures r.xIncr == e.xIncr && r.zIncr == e.zIncr && r.deltaN == e.deltaN && r.deltaUV == e.deltaUV
    ensures Sub(r.currentN, e.currentN) == e.deltaN && Sub(r.currentUV, e.currentUV) == e.deltaUV
    ensures r.currentX - e.currentX == e.xIncr && r.currentZ - e.currentZ == e.zIncr
  {
    e.(currentX := e.currentX + e.xIncr,
       currentZ := e.currentZ + e.zIncr,
       currentN := Add(e.currentN, e.deltaN),
       currentUV := Add(e.currentUV, e.deltaUV))
  }

  /** Every edge of `s` advanced by one row. */
  function AdvanceAll(s: seq<Edge>): (r: seq<Edge>)
  {
    seq(|s|, i requires 0 <= i < |s| => Advanced(s[i]))
  }

  predicate SortedByX(s: seq<Edge>)
  {
    forall i, j :: 0 <= i < j < |s| ==> s[i].currentX <= s[j].currentX
  }

  predicate NoneExpired(s: seq<Edge>, y: int)
  {
    forall e :: e in s ==> !Expired(e, y)
  }

  class ActiveEdgeList {
    var edges: seq<Edge>
    var currentY: int
    /** The row the list was constructed with, and the number of `add` calls since. */
    ghost const startingY: int
    ghost var rows: nat

    ghost predicate Valid()
      reads this
    {
      currentY == startingY + rows && SortedByX(edges) && NoneExpired(edges, currentY)
    }

    /** `ActiveEdgeList(startingY)`: no edges yet, at row `startingY`. */
    constructor (startingY: int)
      ensures Valid() && edges == [] && rows == 0
      ensures currentY == startingY && this.startingY == startingY
    {
      this.startingY := startingY;
      rows := 0;
      currentY := startingY;
      edges := [];
    }

    /** `add(newedges)`: move to the next row, admit `newedges` after the present ones, drop
        the expired and horizontal edges, step the survivors one row and sort them by X. */
    method Add(newedges: seq<Edge>)
      requires Valid()
      modifies this`edges, this`currentY, this`rows
      ensures Valid()
      ensures currentY == old(currentY) + 1 && rows == old(rows) + 1
      ensures multiset(edges) == multiset(AdvanceAll(Pruned(old(edges) + newedges, currentY)))
    {
      currentY := currentY + 1;
      rows := rows + 1;
      if |newedges| > 0 {
        edges := edges + newedges;
      }
      ghost var admitted := old(edges) + newedges;
      assert edges == admitted;
      Prune();
      Increment();
      Sort();
      forall e | e in edges
        ensures !Expired(e, currentY)
      {
        assert e in multiset(AdvanceAll(Pruned(admitted, currentY)));
        var s := Pruned(admitted, currentY);
        var k :| 0 <= k < |s| && AdvanceAll(s)[k] == e;
        assert !Expired(s[k], currentY);
      }
    }

    /** `prune()`: erases, in place, every edge expired at the current row. */
    method Prune()
      modifies this`edges
      ensures edges == Pruned(old(edges), currentY)
    {
      var s := edges;
      var k := 0;
      while k < |s|
        invariant 0 <= k <= |s|
        invariant Pruned(s, currentY) == Pruned(old(edges), currentY)
        invariant forall m :: 0 <= m < k ==> !Expired(s[m], currentY)
      {
        if Expired(s[k], currentY) {
          PrunedDropsExpired(s, k, currentY);
          s := s[..k] + s[k + 1..];
        } else {
          k := k + 1;
        }
      }
      PrunedKeepsLive(s, currentY);
      edges := s;
    }

    /** `increment()`: every edge advanced by one row, in place. */
    method Increment()
      modifies this`edges
      ensures edges == AdvanceAll(old(edges))
    {
      var s := edges;
      for i := 0 to |s|
        invariant |s| == |old(edges)|
        invariant forall k :: 0 <= k < i ==> s[k] == Advanced(old(edges)[k])
        invariant forall k :: i <= k < |s| ==> s[k] == old(edges)[k]
      {
        s := s[i := Advanced(s[i])];
      }
      edges := s;
    }

    /** `sort()`: orders the edges by `currentX` (any order among equal keys). */
    method Sort()
      modifies this`edges
      ensures SortedByX(edges) && multiset(edges) == multiset(old(edges))
    {
      var s := edges;
      var i := 0;
      while i < |s|
        invariant 0 <= i <= |s|
        invariant multiset(s) == multiset(old(edges))
        invariant SortedByX(s[..i])
      {
        s := InsertIntoPrefix(s, i);
        i := i + 1;
      }
      assert s[..|s|] == s;
      edges := s;
    }

    /** `size()` */
    function Size(): (n: nat)
      reads this
      ensures n == |edges|
    {
      |edges|
    }

    /** `getCurrentY()`: the row reached, `startingY` plus the number of `add` calls. */
    function GetCurrentY(): (y: int)
      reads this
      requires Valid()
      ensures y == startingY + rows
    {
      currentY
    }

    /** `operator[](i)`: a copy of the `i`-th edge by X, one that crosses the current row. */
    function Get(i: nat): (e: Edge)
      reads this
      requires Valid() && i < |edges|
      ensures e == edges[i] && !Expired(e, currentY)
      ensures forall k :: 0 <= k < i ==> edges[k].currentX <= e.currentX
      ensures forall k :: i < k < |edges| ==> e.currentX <= edges[k].currentX
    {
      edges[i]
    }
  }

  /** One step of the insertion sort behind `sort`: moves `s[i]` left into the sorted
      prefix `s[..i]`, so that `s[..i + 1]` is sorted. */
  method InsertIntoPrefix(s: seq<Edge>, i: nat) returns (t: seq<Edge>)
    requires i < |s| && SortedByX(s[..i])
    ensures |t| == |s| && SortedByX(t[..i + 1]) && multiset(t) == multiset(s)
  {
    t := s;
    var j := i;
    while j > 0 && t[j - 1].currentX > t[j].currentX
      invariant 0 <= j <= i < |t| == |s|
      invariant multiset(t) == multiset(s)
      invariant SortedExcept(t, i, j) && BelowRest(t, i, j)
    {
      SwapMultiset(t, j);
      SwapStep(t, i, j);
      t := t[j - 1 := t[j]][j := t[j - 1]];
      j := j - 1;
    }
    InsertDone(t, i, j);
  }

  /** Positions up to `i` are in order by X, apart from the one at `j` being inserted. */
  ghost predicate SortedExcept(t: seq<Edge>, i: nat, j: nat)
    requires i < |t|
  {
    forall a, b :: 0 <= a < b <= i && b != j ==> t[a].currentX <= t[b].currentX
  }

  /** The edge being inserted lies left of everything it has already passed. */
  ghost predicate BelowRest(t: seq<Edge>, i: nat, j: nat)
    requires j <= i < |t|
  {
    forall b :: j < b <= i ==> t[j].currentX < t[b].currentX
  }

  /** Swapping the inserted edge with a larger left neighbour keeps both invariants. */
  lemma SwapStep(t: seq<Edge>, i: nat, j: nat)
    requires 0 < j <= i < |t|
    requires SortedExcept(t, i, j) && BelowRest(t, i, j)
    requires t[j - 1].currentX > t[j].currentX
    ensures SortedExcept(t[j - 1 := t[j]][j := t[j - 1]], i, j - 1)
    ensures BelowRest(t[j - 1 := t[j]][j := t[j - 1]], i, j - 1)
  {
    var u := t[j - 1 := t[j]][j := t[j - 1]];
    forall a, b | 0 <= a < b <= i && b != j - 1
      ensures u[a].currentX <= u[b].currentX
    {
      if b == j {
        if a < j - 1 {
          assert u[a] == t[a] && u[b] == t[j - 1];
        } else {
          assert a == j - 1 && u[a] == t[j] && u[b] == t[j - 1];
        }
      } else if a == j - 1 {
        assert u[a] == t[j] && u[b] == t[b];
      } else if a == j {
        assert u[a] == t[j - 1] && u[b] == t[b];
      } else {
        assert u[a] == t[a] && u[b] == t[b];
      }
    }
  }

  /** When the inserted edge stops, the whole prefix up to `i` is sorted. */
  lemma InsertDone(t: seq<Edge>, i: nat, j: nat)
    requires j <= i < |t|
    requires SortedExcept(t, i, j)
    requires j > 0 ==> t[j - 1].currentX <= t[j].currentX
    requires BelowRest(t, i, j)
    ensures SortedByX(t[..i + 1])
  {
    forall a, b | 0 <= a < b <= i
      ensures t[a].currentX <= t[b].currentX
    {
      if b == j && a < j - 1 {
        assert t[a].currentX <= t[j - 1].currentX;
      }
    }
  }

  /** Exchanging two neighbours keeps the same edges. */
  lemma SwapMultiset(s: seq<Edge>, j: nat)
    requires 0 < j < |s|
    ensures multiset(s[j - 1 := s[j]][j := s[j - 1]]) == multiset(s)
  {
    var t := s[j - 1 := s[j]][j := s[j - 1]];
    assert s == s[..j - 1] + [s[j - 1], s[j]] + s[j + 1..];
    assert t == s[..j - 1] + [s[j], s[j - 1]] + s[j + 1..];
  }

  /** Removing an expired edge from the middle of `s` does not change what survives. */
  lemma PrunedDropsExpired(s: seq<Edge>, k: nat, y: int)
    requires k < |s| && Expired(s[k], y)
    ensures Pruned(s[..k] + s[k + 1..], y) == Pruned(s, y)
  {
    var before, after := s[..k], s[k + 1..];
    assert s == (before + [s[k]]) + after;
    assert Pruned([s[k]], y) == [] by {
      assert [s[k]][..0] == [];
    }
    PrunedAppend(before, [s[k]], y);
    PrunedAppend(before + [s[k]], after, y);
    PrunedAppend(before, after, y);
  }

  /** A list with nothing expired is its own pruning. */
  lemma {:induction false} PrunedKeepsLive(s: seq<Edge>, y: int)
    requires forall m :: 0 <= m < |s| ==> !Expired(s[m], y)
    ensures Pruned(s, y) == s
  {
    if |s| > 0 {
      PrunedKeepsLive(s[..|s| - 1], y);
      assert s == s[..|s| - 1] + [s[|s| - 1]];
    }
  }

  /** Pruning a concatenation prunes each part. */
  lemma {:induction false} PrunedAppend(a: seq<Edge>, b: seq<Edge>, y: int)
    ensures Pruned(a + b, y) == Pruned(a, y) + Pruned(b, y)
  {
    if |b| == 0 {
      assert a + b == a;
    } else {
      var init := b[..|b| - 1];
      PrunedAppend(a, init, y);
      assert (a + b)[..|a + b| - 1] == a + init;
    }
  }

  /** Pruning removes exactly the expired edges: each live edge keeps all its occurrences,
      each expired edge loses all of them. */
  lemma {:induction false} PrunedCount(s: seq<Edge>, y: int, e: Edge)
    ensures multiset(Pruned(s, y))[e] == if Expired(e, y) then 0 else multiset(s)[e]
  {
    if |s| > 0 {
      var init := s[..|s| - 1];
      PrunedCount(init, y, e);
      assert s == init + [s[|s| - 1]];
    }
  }

  /** Advancing the list moves every edge and keeps the list's length. */
  lemma AdvanceAllEach(s: seq<Edge>)
    ensures |AdvanceAll(s)| == |s|
    ensures forall i :: 0 <= i < |s| ==> AdvanceAll(s)[i] == Advanced(s[i])
  {
  }

  /** `k` successive rows of an edge. */
  function AdvancedTimes(e: Edge, k: nat): Edge
  {
    if k == 0 then e else Advanced(AdvancedTimes(e, k - 1))
  }

  /** After `k` rows the running X and Z have moved by exactly `k` increments. */
  lemma {:induction false} AdvancedTimesLinear(e: Edge, k: nat)
    ensures AdvancedTimes(e, k).currentX == e.currentX + k as real * e.xIncr
    ensures AdvancedTimes(e, k).currentZ == e.currentZ + k as real * e.zIncr
    ensures AdvancedTimes(e, k).xIncr == e.xIncr && AdvancedTimes(e, k).zIncr == e.zIncr
    ensures AdvancedTimes(e, k).start == e.start && AdvancedTimes(e, k).end == e.end
  {
    if k > 0 {
      AdvancedTimesLinear(e, k - 1);
    }
  }

  /** A non-horizontal edge set up by `setEndPoint` reaches its end point's X after as many
      rows as it is tall. */
  lemma ReachesEnd(e: Edge, a: Vector3, b: Vector3, k: nat)
    requires Spans(e, a, b) && k > 0 && e.end.y - e.start.y == k as real
    ensures AdvancedTimes(e, k).currentX == e.end.x
  {
    AdvancedTimesLinear(e, k);
  }
}
