/**
 * The proximity graph that graph_tool's geometric_graph builds over the kept
 * cell centroids, and the graph object that carries its property maps.
 * Vertices are the indices 0..n-1 of the point set; an undirected edge is
 * stored once, as Edge(u, v) with u < v.
 */
module Graphs {
  import opened Wrappers

  /** A 2-D centroid (x, y). */
  datatype Point = Point(x: real, y: real)

  /** An undirected edge between vertices u and v, stored with u < v. */
  datatype Edge = Edge(u: nat, v: nat)

  /** The squared Euclidean distance; comparing squares avoids a square root. */
  function SqDist(p: Point, q: Point): (d: real)
    ensures d >= 0.0
  {
    (p.x - q.x) * (p.x - q.x) + (p.y - q.y) * (p.y - q.y)
  }

  /** The distance does not depend on the order of the endpoints. */
  lemma SqDistSymmetric(p: Point, q: Point)
    ensures SqDist(p, q) == SqDist(q, p)
  {
    assert (p.x - q.x) * (p.x - q.x) == (q.x - p.x) * (q.x - p.x);
    assert (p.y - q.y) * (p.y - q.y) == (q.y - p.y) * (q.y - p.y);
  }

  /** The radius test of geometric_graph: distance at most r (never for r < 0). */
  predicate Within(p: Point, q: Point, r: real)
  {
    r >= 0.0 && SqDist(p, q) <= r * r
  }

  /** Lexicographic order on edges; a strictly increasing edge list has no repeats. */
  predicate Before(e: Edge, f: Edge)
  {
    e.u < f.u || (e.u == f.u && e.v < f.v)
  }

  /** The edge list is strictly increasing in lexicographic order. */
  predicate Increasing(edges: seq<Edge>)
  {
    forall k, l :: 0 <= k < l < |edges| ==> Before(edges[k], edges[l])
  }

  /** The edge list is simple over n vertices: no self-loops, endpoints in range, no duplicates. */
  predicate Simple(n: nat, edges: seq<Edge>)
  {
    && (forall k :: 0 <= k < |edges| ==> edges[k].u < edges[k].v < n)
    && Increasing(edges)
  }

  /** i and j are adjacent in the undirected graph the edge list describes. */
  predicate Adjacent(edges: seq<Edge>, i: nat, j: nat)
  {
    Edge(i, j) in edges || Edge(j, i) in edges
  }

  /** The edges (i, j') with i < j' < j and points i, j' within r, in order of j'. */
  function RowPairs(pts: seq<Point>, r: real, i: nat, j: nat): seq<Edge>
    requires i < |pts| && j <= |pts|
  {
    if j == 0 then []
    else RowPairs(pts, r, i, j - 1)
         + (if i < j - 1 && Within(pts[i], pts[j - 1], r) then [Edge(i, j - 1)] else [])
  }

  /** All qualifying pairs whose smaller endpoint is below i, in lexicographic order. */
  function PairsBefore(pts: seq<Point>, r: real, i: nat): seq<Edge>
    requires i <= |pts|
  {
    if i == 0 then [] else PairsBefore(pts, r, i - 1) + RowPairs(pts, r, i - 1, |pts|)
  }

  /** The edge list of the proximity graph of radius r over pts. */
  function EdgesWithin(pts: seq<Point>, r: real): seq<Edge>
  {
    PairsBefore(pts, r, |pts|)
  }

  /** Row i holds exactly the qualifying pairs (i, v) with i < v < j. */
  lemma {:induction false} RowPairsMembers(pts: seq<Point>, r: real, i: nat, j: nat)
    requires i < |pts| && j <= |pts|
    ensures forall e :: e in RowPairs(pts, r, i, j) <==> e.u == i && i < e.v < j && Within(pts[i], pts[e.v], r)
  {
    if j > 0 {
      var prev := RowPairs(pts, r, i, j - 1);
      var last := if i < j - 1 && Within(pts[i], pts[j - 1], r) then [Edge(i, j - 1)] else [];
      RowPairsMembers(pts, r, i, j - 1);
      assert RowPairs(pts, r, i, j) == prev + last;
      forall e: Edge ensures e in prev + last <==> e.u == i && i < e.v < j && Within(pts[i], pts[e.v], r) {
        assert e in prev + last <==> e in prev || e in last;
      }
    }
  }

  /** Every pair of row i, scanned up to j, is (i, v) with i < v < j. */
  lemma {:induction false} RowPairsBounds(pts: seq<Point>, r: real, i: nat, j: nat)
    requires i < |pts| && j <= |pts|
    ensures forall k :: 0 <= k < |RowPairs(pts, r, i, j)| ==>
              RowPairs(pts, r, i, j)[k].u == i && i < RowPairs(pts, r, i, j)[k].v < j
  {
    if j > 0 {
      var prev := RowPairs(pts, r, i, j - 1);
      var last := if i < j - 1 && Within(pts[i], pts[j - 1], r) then [Edge(i, j - 1)] else [];
      RowPairsBounds(pts, r, i, j - 1);
      assert RowPairs(pts, r, i, j) == prev + last;
    }
  }

  /** Row i lists its pairs in increasing order. */
  lemma {:induction false} RowPairsIncreasing(pts: seq<Point>, r: real, i: nat, j: nat)
    requires i < |pts| && j <= |pts|
    ensures Increasing(RowPairs(pts, r, i, j))
  {
    if j > 0 {
      var prev := RowPairs(pts, r, i, j - 1);
      var last := if i < j - 1 && Within(pts[i], pts[j - 1], r) then [Edge(i, j - 1)] else [];
      RowPairsIncreasing(pts, r, i, j - 1);
      RowPairsBounds(pts, r, i, j - 1);
      IncreasingConcat(prev, last);
      assert RowPairs(pts, r, i, j) == prev + last;
    }
  }

  /** Two increasing lists, every edge of the first before every edge of the second, concatenate to an increasing list. */
  lemma IncreasingConcat(a: seq<Edge>, b: seq<Edge>)
    requires Increasing(a) && Increasing(b)
    requires forall k, l :: 0 <= k < |a| && 0 <= l < |b| ==> Before(a[k], b[l])
    ensures Increasing(a + b)
  {
    var all := a + b;
    forall k, l | 0 <= k < l < |all| ensures Before(all[k], all[l]) {
      if l < |a| {
        assert all[k] == a[k] && all[l] == a[l];
      } else if k >= |a| {
        assert all[k] == b[k - |a|] && all[l] == b[l - |a|];
      } else {
        assert all[k] == a[k] && all[l] == b[l - |a|];
      }
    }
  }

  /** A row started just after i is still empty. */
  lemma {:induction false} RowPairsEmpty(pts: seq<Point>, r: real, i: nat, j: nat)
    requires i < |pts| && j <= i + 1 && j <= |pts|
    ensures RowPairs(pts, r, i, j) == []
  {
    if j > 0 {
      RowPairsEmpty(pts, r, i, j - 1);
    }
  }

  lemma PairsBeforeExact(pts: seq<Point>, r: real, i: nat)
    requires i <= |pts|
    ensures forall e :: e in PairsBefore(pts, r, i) <==>
              e.u < i && e.u < e.v < |pts| && Within(pts[e.u], pts[e.v], r)
    ensures Simple(|pts|, PairsBefore(pts, r, i))
  {
    PairsBeforeMembers(pts, r, i);
    PairsBeforeIncreasing(pts, r, i);
    PairsBeforeBounds(pts, r, i);
  }

  /** The pairs before i are exactly the qualifying pairs with smaller endpoint below i. */
  lemma {:induction false} PairsBeforeMembers(pts: seq<Point>, r: real, i: nat)
    requires i <= |pts|
    ensures forall e :: e in PairsBefore(pts, r, i) <==>
              e.u < i && e.u < e.v < |pts| && Within(pts[e.u], pts[e.v], r)
  {
    if i > 0 {
      var done, row := PairsBefore(pts, r, i - 1), RowPairs(pts, r, i - 1, |pts|);
      PairsBeforeMembers(pts, r, i - 1);
      RowPairsMembers(pts, r, i - 1, |pts|);
      assert PairsBefore(pts, r, i) == done + row;
      forall e: Edge ensures e in done + row <==> e.u < i && e.u < e.v < |pts| && Within(pts[e.u], pts[e.v], r) {
        assert e in done + row <==> e in done || e in row;
      }
    }
  }

  /** Every pair before i has smaller endpoint below i and larger endpoint in range. */
  lemma {:induction false} PairsBeforeBounds(pts: seq<Point>, r: real, i: nat)
    requires i <= |pts|
    ensures forall k :: 0 <= k < |PairsBefore(pts, r, i)| ==>
              PairsBefore(pts, r, i)[k].u < i && PairsBefore(pts, r, i)[k].u < PairsBefore(pts, r, i)[k].v < |pts|
  {
    if i > 0 {
      var done, row := PairsBefore(pts, r, i - 1), RowPairs(pts, r, i - 1, |pts|);
      PairsBeforeBounds(pts, r, i - 1);
      RowPairsBounds(pts, r, i - 1, |pts|);
      assert PairsBefore(pts, r, i) == done + row;
    }
  }

  /** The pairs before i are listed in strictly increasing order. */
  lemma {:induction false} PairsBeforeIncreasing(pts: seq<Point>, r: real, i: nat)
    requires i <= |pts|
    ensures Increasing(PairsBefore(pts, r, i))
  {
    if i > 0 {
      var done, row := PairsBefore(pts, r, i - 1), RowPairs(pts, r, i - 1, |pts|);
      PairsBeforeIncreasing(pts, r, i - 1);
      PairsBeforeBounds(pts, r, i - 1);
      RowPairsIncreasing(pts, r, i - 1, |pts|);
      RowPairsBounds(pts, r, i - 1, |pts|);
      IncreasingConcat(done, row);
      assert PairsBefore(pts, r, i) == done + row;
    }
  }

  /**
   * The proximity graph is exactly the radius relation: i and j are adjacent
   * iff they are distinct vertices whose points lie within r; the edge list
   * is simple, so the relation is symmetric and irreflexive.
   */
  lemma EdgesWithinExact(pts: seq<Point>, r: real)
    ensures Simple(|pts|, EdgesWithin(pts, r))
    ensures forall i, j :: 0 <= i < |pts| && 0 <= j < |pts| ==>
              (Adjacent(EdgesWithin(pts, r), i, j) <==> i != j && Within(pts[i], pts[j], r))
  {
    PairsBeforeExact(pts, r, |pts|);
    forall i, j | 0 <= i < |pts| && 0 <= j < |pts|
      ensures Adjacent(EdgesWithin(pts, r), i, j) <==> i != j && Within(pts[i], pts[j], r)
    {
      SqDistSymmetric(pts[i], pts[j]);
    }
  }

  /** A simple edge list never lists the same edge twice. */
  lemma NoDuplicateEdges(n: nat, edges: seq<Edge>)
    requires Simple(n, edges)
    ensures forall k, l :: 0 <= k < |edges| && 0 <= l < |edges| && k != l ==> edges[k] != edges[l]
  {
    forall k, l | 0 <= k < |edges| && 0 <= l < |edges| && k != l ensures edges[k] != edges[l] {
      if k < l { assert Before(edges[k], edges[l]); } else { assert Before(edges[l], edges[k]); }
    }
  }

  /**
   * Naive all-pairs construction of the proximity graph, comparing squared
   * distances; geometric_graph's spatial index is not modelled, only its result.
   */
  method BuildEdges(pts: seq<Point>, r: real) returns (edges: seq<Edge>)
    ensures edges == EdgesWithin(pts, r)
  {
    var n := |pts|;
    edges := [];
    var i := 0;
    while i < n
      invariant 0 <= i <= n
      invariant edges == PairsBefore(pts, r, i)
    {
      var j := i + 1;
      RowPairsEmpty(pts, r, i, j);
      while j < n
        invariant i + 1 <= j <= n
        invariant edges == PairsBefore(pts, r, i) + RowPairs(pts, r, i, j)
      {
        var dx, dy := pts[i].x - pts[j].x, pts[i].y - pts[j].y;
        assert dx * dx + dy * dy == SqDist(pts[i], pts[j]);
        if r >= 0.0 && dx * dx + dy * dy <= r * r {
          edges := edges + [Edge(i, j)];
        }
        j := j + 1;
      }
      assert PairsBefore(pts, r, i + 1) == PairsBefore(pts, r, i) + RowPairs(pts, r, i, n);
      i := i + 1;
    }
  }

  /**
   * The graph_tool Graph object as the pipeline uses it: n vertices, the edge
   * list, the vertex property "pos" and the edge property "weight" (absent
   * until the feature extractor stores it).
   */
  class Graph {
    var n: nat
    var edges: seq<Edge>
    var pos: seq<Point>
    var weight: Option<seq<real>>

    ghost predicate Valid()
      reads this
    {
      |pos| == n && Simple(n, edges) && (weight.Some? ==> |weight.value| == |edges|)
    }

    /**
     * geometric_graph(points, radius) followed by storing the returned
     * positions as the vertex property "pos": one vertex per point, isolated
     * points included, and the radius edges.
     */
    constructor Geometric(points: seq<Point>, radius: real)
      ensures Valid()
      ensures n == |points| && pos == points
      ensures edges == EdgesWithin(points, radius)
      ensures weight == None
    {
      var e := BuildEdges(points, radius);
      EdgesWithinExact(points, radius);
      n, pos, edges, weight := |points|, points, e, None;
    }
  }
}
