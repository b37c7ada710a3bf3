/**
 * The feature extractor get_feature: it stores the Euclidean edge weights on
 * the graph, collects one eccentricity per vertex, and reduces the per-vertex
 * outputs of the graph_tool algorithms to one record of named statistics.
 * The algorithms themselves (clustering, shortest distances, k-core,
 * assortativity, betweenness, central-point dominance, eigenvector) are
 * foreign; their outputs for the graph arrive as an Analysis value.
 */
module Features {
  import opened Wrappers
  import opened Reductions
  import opened Graphs

  /** What the graph_tool algorithms return for one graph. */
  datatype Analysis = Analysis(
    clus: real,                     // global_clustering: coefficient
    clusDev: real,                  // global_clustering: its deviation
    dist: seq<seq<Option<real>>>,   // shortest_distance from each source; None is inf
    core: seq<nat>,                 // kcore_decomposition: core number per vertex
    corrMean: real,                 // assortativity(g, 'total'): coefficient
    corrVar: real,                  // assortativity(g, 'total'): variance
    betweenness: seq<real>,         // betweenness: vertex values
    dominance: real,                // central_point_dominance
    eigenvalue: real)               // eigenvector: largest eigenvalue

  /**
   * The shape graph_tool guarantees for a graph of n vertices: one distance
   * row of length n per source, the source's own distance 0, and one core
   * number and one betweenness value per vertex.
   */
  predicate Fits(a: Analysis, n: nat)
  {
    && |a.dist| == n
    && (forall v :: 0 <= v < n ==> |a.dist[v]| == n && a.dist[v][v] == Some(0.0))
    && |a.core| == n
    && |a.betweenness| == n
  }

  /** The error get_feature raises: np.max over an empty dist_list when the graph has no vertex. */
  datatype FeatureError = ZeroSizeMax

  /** One row of the feature table, as the record's values. */
  datatype Statistics = Statistics(
    clus: real, clusDev: real,
    avgDist: real, diameter: real,
    avgDegree: real, numNodes: nat,
    maxKcore: real, meanKcore: real, freqKcore: nat, numKcore: nat,
    corrMean: real, corrVar: real,
    avgBetweenness: real, numHighBetweenness: real,
    centralNodeDom: real, eigenvectorCentrality: real)

  /** A cell of the feature table. */
  datatype Cell = Text(text: string) | Num(num: real)

  /** The columns of the feature table, in order. */
  const Columns: seq<string> :=
    ["ROI", "clus", "clus_dev", "avg_dist", "diameter",
     "avg_degree", "num_nodes", "max_kcore", "mean_kcore",
     "freq_kcore", "num_kcore", "corr_mean", "corr_var", "avg_betweenness",
     "num_high_betweenness", "central_node_dom",
     "eigenvector_centrality"]

  // ---------------------------------------------------------------- weights

  /**
   * The loop that fills the edge property "weight": one value per edge, the
   * squared Euclidean length between the endpoints' positions.
   */
  method EdgeWeights(pos: seq<Point>, edges: seq<Edge>) returns (weight: seq<real>)
    requires forall k :: 0 <= k < |edges| ==> edges[k].u < |pos| && edges[k].v < |pos|
    ensures |weight| == |edges|
    ensures forall k :: 0 <= k < |edges| ==>
              weight[k] == SqDist(pos[edges[k].v], pos[edges[k].u])
  {
    weight := [];
    for k := 0 to |edges|
      invariant |weight| == k
      invariant forall l :: 0 <= l < k ==> weight[l] == SqDist(pos[edges[l].v], pos[edges[l].u])
    {
      var s, t := pos[edges[k].u], pos[edges[k].v];
      weight := weight + [SqDist(t, s)];
    }
  }

  /** On the proximity graph of radius r, every stored weight is at most r squared. */
  lemma WeightsWithinRadius(pts: seq<Point>, r: real, k: nat)
    requires k < |EdgesWithin(pts, r)|
    ensures var e := EdgesWithin(pts, r)[k];
            e.u < e.v < |pts| && 0.0 <= SqDist(pts[e.v], pts[e.u]) <= r * r
  {
    var e := EdgesWithin(pts, r)[k];
    PairsBeforeExact(pts, r, |pts|);
    assert e in EdgesWithin(pts, r);
    SqDistSymmetric(pts[e.v], pts[e.u]);
  }

  // ----------------------------------------------------------- eccentricity

  /** np.max over the finite entries of a distance row; None when every entry is inf. */
  function MaxFinite(row: seq<Option<real>>): (m: Option<real>)
    ensures m.None? <==> forall j :: 0 <= j < |row| ==> row[j].None?
    ensures m.Some? ==> exists j :: 0 <= j < |row| && row[j] == m
    ensures m.Some? ==> forall j :: 0 <= j < |row| && row[j].Some? ==> row[j].value <= m.value
  {
    if row == [] then None
    else
      var init, last := row[..|row| - 1], row[|row| - 1];
      var m' := MaxFinite(init);
      assert forall j :: 0 <= j < |row| - 1 ==> init[j] == row[j];
      match last
      case None => m'
      case Some(d) => if m'.None? || d > m'.value then Some(d) else m'
  }

  /**
   * The eccentricity of source v: the largest finite distance in its row.
   * The source's own distance 0 is finite, so it is non-negative.
   */
  function Eccentricity(row: seq<Option<real>>, v: nat): (e: real)
    requires v < |row| && row[v] == Some(0.0)
    ensures e >= 0.0
    ensures exists j :: 0 <= j < |row| && row[j] == Some(e)
    ensures forall j :: 0 <= j < |row| && row[j].Some? ==> row[j].value <= e
  {
    MaxFinite(row).value
  }

  /** dist_list: one eccentricity per vertex, in vertex order. */
  function EccentricityList(a: Analysis, n: nat): (ecc: seq<real>)
    requires Fits(a, n)
  {
    seq(n, v requires 0 <= v < n => Eccentricity(a.dist[v], v))
  }

  /** The loop over the vertices that appends each eccentricity to dist_list. */
  method Eccentricities(a: Analysis, n: nat) returns (distList: seq<real>)
    requires Fits(a, n)
    ensures |distList| == n
    ensures forall v :: 0 <= v < n ==> distList[v] >= 0.0
    ensures forall v, j :: 0 <= v < n && 0 <= j < n && a.dist[v][j].Some? ==> a.dist[v][j].value <= distList[v]
    ensures distList == EccentricityList(a, n)
  {
    distList := [];
    for v := 0 to n
      invariant distList == EccentricityList(a, n)[..v]
    {
      distList := distList + [MaxFinite(a.dist[v]).value];
    }
  }

  // ---------------------------------------------------------------- degrees

  predicate Incident(e: Edge, x: nat)
  {
    e.u == x || e.v == x
  }

  /** The total degree of vertex x: the number of edges incident to it. */
  function Degree(edges: seq<Edge>, x: nat): nat
  {
    if edges == [] then 0
    else Degree(edges[..|edges| - 1], x) + if Incident(edges[|edges| - 1], x) then 1 else 0
  }

  /** get_total_degrees over vertices 0..n-1. */
  function Degrees(edges: seq<Edge>, n: nat): (d: seq<real>)
    ensures |d| == n
    ensures forall x :: 0 <= x < n ==> d[x] == Degree(edges, x) as real
  {
    if n == 0 then [] else Degrees(edges, n - 1) + [Degree(edges, n - 1) as real]
  }

  /** Appending an edge raises the degree of exactly its two endpoints by one. */
  lemma DegreeAddEdge(edges: seq<Edge>, e: Edge, x: nat)
    ensures Degree(edges + [e], x) == Degree(edges, x) + if Incident(e, x) then 1 else 0
  {
    assert (edges + [e])[..|edges|] == edges;
  }

  /** The total degree of the vertices below k, as an integer. */
  function DegreeTotal(edges: seq<Edge>, k: nat): nat
  {
    if k == 0 then 0 else DegreeTotal(edges, k - 1) + Degree(edges, k - 1)
  }

  /** The real-valued degree array sums to the integer total. */
  lemma {:induction false} SumDegrees(edges: seq<Edge>, k: nat)
    ensures Sum(Degrees(edges, k)) == DegreeTotal(edges, k) as real
  {
    if k > 0 {
      SumDegrees(edges, k - 1);
      assert Degrees(edges, k)[..k - 1] == Degrees(edges, k - 1);
    }
  }

  /** Appending an edge e with distinct endpoints adds to the total the endpoints below k. */
  lemma {:induction false} DegreeTotalAddEdge(edges: seq<Edge>, e: Edge, k: nat)
    requires e.u != e.v
    ensures DegreeTotal(edges + [e], k)
         == DegreeTotal(edges, k) + (if e.u < k then 1 else 0) + (if e.v < k then 1 else 0)
  {
    if k > 0 {
      DegreeTotalAddEdge(edges, e, k - 1);
      DegreeAddEdge(edges, e, k - 1);
    }
  }

  /** With no edges every degree is 0. */
  lemma {:induction false} NoEdgesNoDegree(n: nat)
    ensures DegreeTotal([], n) == 0
  {
    if n > 0 {
      NoEdgesNoDegree(n - 1);
    }
  }

  /** Handshake: over a loop-free edge list, the degrees sum to twice the edge count. */
  lemma {:induction false} Handshake(edges: seq<Edge>, n: nat)
    requires forall k :: 0 <= k < |edges| ==> edges[k].u < edges[k].v < n
    ensures DegreeTotal(edges, n) == 2 * |edges|
  {
    if edges == [] {
      NoEdgesNoDegree(n);
    } else {
      var init, e := edges[..|edges| - 1], edges[|edges| - 1];
      assert init + [e] == edges;
      assert forall k :: 0 <= k < |init| ==> init[k] == edges[k];
      Handshake(init, n);
      DegreeTotalAddEdge(init, e, n);
    }
  }

  /** np.mean of the total degrees. */
  function AverageDegree(edges: seq<Edge>, n: nat): real
    requires n > 0
  {
    Mean(Degrees(edges, n))
  }

  /** Handshake for the mean: on a loop-free edge list the mean degree is twice the edge count over the vertex count. */
  lemma MeanDegreeHandshake(edges: seq<Edge>, n: nat)
    requires n > 0
    requires Simple(n, edges)
    ensures AverageDegree(edges, n) == (2 * |edges|) as real / (n as real)
  {
    var d := Degrees(edges, n);
    Handshake(edges, n);
    SumDegrees(edges, n);
    assert Sum(d) == (2 * |edges|) as real;
    assert AverageDegree(edges, n) == Mean(d);
  }

  // -------------------------------------------------------------- reduction

  /**
   * The reductions of get_feature over dist_list and the library outputs.
   * With no vertex, np.max over the empty dist_list raises.
   */
  function Summarise(n: nat, distList: seq<real>, edges: seq<Edge>, a: Analysis): (r: Result<Statistics, FeatureError>)
    requires Fits(a, n) && |distList| == n && Simple(n, edges)
    ensures r.Err? <==> n == 0
    ensures r.Ok? ==> r.value.numNodes == n
  {
    if n == 0 then Err(ZeroSizeMax)
    else
      var core := AsReals(a.core);
      var maxK := Max(core);
      var meanB := Mean(a.betweenness);
      Ok(Statistics(
        clus := a.clus, clusDev := a.clusDev,
        avgDist := Mean(distList), diameter := Max(distList),
        avgDegree := AverageDegree(edges, n), numNodes := n,
        maxKcore := maxK, meanKcore := Mean(core),
        freqKcore := |Distinct(a.core)|, numKcore := CountEqual(core, maxK),
        corrMean := a.corrMean, corrVar := a.corrVar,
        avgBetweenness := meanB,
        numHighBetweenness := Mean(AboveMask(a.betweenness, meanB)),
        centralNodeDom := a.dominance, eigenvectorCentrality := a.eigenvalue))
  }

  /** The statistics of a graph with n vertices and the given edges. */
  function Compute(n: nat, edges: seq<Edge>, a: Analysis): Result<Statistics, FeatureError>
    requires Fits(a, n) && Simple(n, edges)
  {
    Summarise(n, EccentricityList(a, n), edges, a)
  }

  /** The record new_f: every column of the table, keyed by its name. */
  function Record(name: string, f: Statistics): (row: map<string, Cell>)
    ensures row.Keys == set c | c in Columns
    ensures row["ROI"] == Text(name)
  {
    map[
      "ROI" := Text(name), "clus" := Num(f.clus), "clus_dev" := Num(f.clusDev),
      "avg_dist" := Num(f.avgDist), "diameter" := Num(f.diameter),
      "avg_degree" := Num(f.avgDegree), "num_nodes" := Num(f.numNodes as real),
      "max_kcore" := Num(f.maxKcore), "mean_kcore" := Num(f.meanKcore),
      "freq_kcore" := Num(f.freqKcore as real), "num_kcore" := Num(f.numKcore as real),
      "corr_mean" := Num(f.corrMean), "corr_var" := Num(f.corrVar),
      "avg_betweenness" := Num(f.avgBetweenness),
      "num_high_betweenness" := Num(f.numHighBetweenness),
      "central_node_dom" := Num(f.centralNodeDom),
      "eigenvector_centrality" := Num(f.eigenvectorCentrality)]
  }

  /** What get_feature returns for a graph: the record, or the error it raises. */
  function FeatureRow(name: string, n: nat, edges: seq<Edge>, a: Analysis): (r: Result<map<string, Cell>, FeatureError>)
    requires Fits(a, n) && Simple(n, edges)
  {
    match Compute(n, edges, a)
    case Ok(f) => Ok(Record(name, f))
    case Err(e) => Err(e)
  }

  /**
   * get_feature: stores the weight property on g, then reduces. The graph's
   * vertices, edges and positions are untouched.
   */
  method GetFeature(g: Graph, name: string, a: Analysis) returns (r: Result<map<string, Cell>, FeatureError>)
    requires g.Valid() && Fits(a, g.n)
    modifies g`weight
    ensures g.Valid()
    ensures g.n == old(g.n) && g.edges == old(g.edges) && g.pos == old(g.pos)
    ensures g.weight.Some? && |g.weight.value| == |g.edges|
    ensures forall k :: 0 <= k < |g.edges| ==>
              g.weight.value[k] == SqDist(g.pos[g.edges[k].v], g.pos[g.edges[k].u])
    ensures r == FeatureRow(name, g.n, g.edges, a)
  {
    var n, edges := g.n, g.edges;
    var weight := EdgeWeights(g.pos, edges);
    g.weight := Some(weight);
    var distList := Eccentricities(a, n);
    var summary := Summarise(n, distList, edges, a);
    assert summary == Compute(n, edges, a);
    match summary
    case Ok(f) => r := Ok(Record(name, f));
    case Err(e) => r := Err(e);
  }

  // ------------------------------------------------------------- properties

  /**
   * avg_dist and diameter: the mean and the maximum of the eccentricities,
   * so 0 <= avg_dist <= diameter, and the diameter bounds every finite
   * shortest distance in the graph.
   */
  lemma DistanceFeatures(n: nat, edges: seq<Edge>, a: Analysis)
    requires Fits(a, n) && n > 0 && Simple(n, edges)
    ensures Compute(n, edges, a).Ok?
    ensures 0.0 <= Compute(n, edges, a).value.avgDist <= Compute(n, edges, a).value.diameter
    ensures forall v, j :: 0 <= v < n && 0 <= j < n && a.dist[v][j].Some? ==>
              a.dist[v][j].value <= Compute(n, edges, a).value.diameter
  {
    var ecc := EccentricityList(a, n);
    MeanAtMostMax(ecc);
    MeanNonNegative(ecc);
    forall v, j | 0 <= v < n && 0 <= j < n && a.dist[v][j].Some?
      ensures a.dist[v][j].value <= Max(ecc)
    {
      assert a.dist[v][j].value <= ecc[v];
    }
  }

  /** avg_degree is twice the edge count over num_nodes. */
  lemma DegreeFeature(n: nat, edges: seq<Edge>, a: Analysis)
    requires Fits(a, n) && n > 0 && Simple(n, edges)
    ensures Compute(n, edges, a).Ok?
    ensures Compute(n, edges, a).value.avgDegree == (2 * |edges|) as real / (n as real)
  {
    MeanDegreeHandshake(edges, n);
  }

  /**
   * The k-core statistics: max_kcore bounds every core number and the mean,
   * at least one and at most num_nodes vertices reach it, and there are
   * between 1 and num_nodes distinct core numbers.
   */
  lemma KcoreFeatures(n: nat, edges: seq<Edge>, a: Analysis)
    requires Fits(a, n) && n > 0 && Simple(n, edges)
    ensures Compute(n, edges, a).Ok?
    ensures forall v :: 0 <= v < n ==> a.core[v] as real <= Compute(n, edges, a).value.maxKcore
    ensures Compute(n, edges, a).value.meanKcore <= Compute(n, edges, a).value.maxKcore
    ensures 1 <= Compute(n, edges, a).value.numKcore <= n
    ensures 1 <= Compute(n, edges, a).value.freqKcore <= n
  {
    var core := AsReals(a.core);
    MaxAttained(core);
    MeanAtMostMax(core);
    DistinctBounds(a.core);
  }

  /** num_high_betweenness is a fraction in [0, 1): not every value exceeds the mean. */
  lemma BetweennessFeature(n: nat, edges: seq<Edge>, a: Analysis)
    requires Fits(a, n) && n > 0 && Simple(n, edges)
    ensures Compute(n, edges, a).Ok?
    ensures 0.0 <= Compute(n, edges, a).value.numHighBetweenness < 1.0
  {
    var meanB := Mean(a.betweenness);
    var mask := AboveMask(a.betweenness, meanB);
    var c := CountAbove(a.betweenness, meanB);
    NotAllAboveMean(a.betweenness);
    SumAboveMask(a.betweenness, meanB);
    assert Mean(mask) == (c as real) / (n as real);
    FractionBelowOne(c, n);
    assert Compute(n, edges, a).value.numHighBetweenness == Mean(mask);
  }

  lemma FractionBelowOne(c: nat, n: nat)
    requires c < n
    ensures 0.0 <= (c as real) / (n as real) < 1.0
  {
  }
}
