/**
 * The batch driver run_graph.py: the type filter and graph construction of
 * process_graph, the lymphocyte test check_count, the derivation of ROI
 * names from the .mat listing, and the loop of main that accumulates one
 * feature row per name. File reading, drawing and saving are external: the
 * directory contents arrive as values.
 */
module RunGraph {
  import opened Wrappers
  import opened Graphs
  import opened Features
  import opened Reductions

  /** The instance data read from one .mat file: inst_centroid rows and the first column of inst_type. */
  datatype MatData = MatData(centroids: seq<Point>, types: seq<int>)

  /** The graph_tool algorithms applied to the graph built from these positions and edges. */
  type Analyser = (seq<Point>, seq<Edge>) -> Analysis

  /** The library returns outputs of the right shape for every graph. */
  ghost predicate Sound(analyse: Analyser)
  {
    forall pos: seq<Point>, edges: seq<Edge> :: Fits(analyse(pos, edges), |pos|)
  }

  /** Why a run of main stops: a file it opens is missing, or get_feature raises. */
  datatype RunError = FileNotFound(file: string) | FeatureFailed(error: FeatureError)

  // ------------------------------------------------------------ type filter

  /** The indices below n whose type entry is 1, ascending. */
  function KeptIndices(types: seq<int>, n: nat): seq<nat>
    requires n <= |types|
  {
    if n == 0 then [] else KeptIndices(types, n - 1) + if types[n - 1] == 1 then [n - 1] else []
  }

  /** The centroids of the first n (centroid, type) pairs whose type is 1, in order. */
  function Keep(centroids: seq<Point>, types: seq<int>, n: nat): seq<Point>
    requires n <= |centroids| && n <= |types|
  {
    if n == 0 then []
    else Keep(centroids, types, n - 1) + if types[n - 1] == 1 then [centroids[n - 1]] else []
  }

  /** The point set of process_graph: zip stops at the shorter of the two arrays. */
  function KeptPoints(centroids: seq<Point>, types: seq<int>): seq<Point>
  {
    Keep(centroids, types, Min(|centroids|, |types|))
  }

  /** KeptIndices lists exactly the type-1 indices below n, strictly increasing. */
  lemma {:induction false} KeptIndicesExact(types: seq<int>, n: nat)
    requires n <= |types|
    ensures forall i :: i in KeptIndices(types, n) ==> i < n && types[i] == 1
    ensures forall i :: 0 <= i < n && types[i] == 1 ==> i in KeptIndices(types, n)
    ensures forall k, l :: 0 <= k < l < |KeptIndices(types, n)| ==> KeptIndices(types, n)[k] < KeptIndices(types, n)[l]
  {
    if n > 0 {
      KeptIndicesExact(types, n - 1);
      var prev := KeptIndices(types, n - 1);
      assert forall k :: 0 <= k < |prev| ==> prev[k] in prev;
    }
  }

  /** The kept points are the centroids at the kept indices, one for one. */
  lemma {:induction false} KeepGathers(centroids: seq<Point>, types: seq<int>, n: nat)
    requires n <= |centroids| && n <= |types|
    ensures |Keep(centroids, types, n)| == |KeptIndices(types, n)|
    ensures forall k :: 0 <= k < |KeptIndices(types, n)| ==>
              KeptIndices(types, n)[k] < n && Keep(centroids, types, n)[k] == centroids[KeptIndices(types, n)[k]]
  {
    if n > 0 {
      KeepGathers(centroids, types, n - 1);
      KeptIndicesExact(types, n - 1);
      var prev := KeptIndices(types, n - 1);
      assert forall k :: 0 <= k < |prev| ==> prev[k] in prev;
    }
  }

  /**
   * The filter keeps exactly the centroids whose type is 1, in input order:
   * the k-th kept point is the centroid at the k-th type-1 index of the
   * zipped prefix.
   */
  lemma FilterExact(centroids: seq<Point>, types: seq<int>)
    ensures var n := Min(|centroids|, |types|);
            var idx := KeptIndices(types, n);
            && |KeptPoints(centroids, types)| == |idx|
            && (forall i :: i in idx ==> i < n && types[i] == 1)
            && (forall i :: 0 <= i < n && types[i] == 1 ==> i in idx)
            && (forall k, l :: 0 <= k < l < |idx| ==> idx[k] < idx[l])
            && (forall k :: 0 <= k < |idx| ==> idx[k] < n && KeptPoints(centroids, types)[k] == centroids[idx[k]])
  {
    var n := Min(|centroids|, |types|);
    KeptIndicesExact(types, n);
    KeepGathers(centroids, types, n);
  }

  /** The loop of process_graph that appends each type-1 centroid to points. */
  method FilterPoints(centroids: seq<Point>, types: seq<int>) returns (points: seq<Point>)
    ensures points == KeptPoints(centroids, types)
  {
    points := [];
    var n := Min(|centroids|, |types|);
    for i := 0 to n
      invariant points == Keep(centroids, types, i)
    {
      if types[i] == 1 {
        points := points + [centroids[i]];
      }
    }
  }

  // ---------------------------------------------------------- process_graph

  /** The feature row of one image's instance data, or the error get_feature raises. */
  function ImageFeatures(name: string, m: MatData, cellDist: real, analyse: Analyser): Result<map<string, Cell>, FeatureError>
    requires Sound(analyse)
  {
    var points := KeptPoints(m.centroids, m.types);
    var edges := EdgesWithin(points, cellDist);
    EdgesWithinExact(points, cellDist);
    FeatureRow(name, |points|, edges, analyse(points, edges))
  }

  /**
   * process_graph: filter the points, build the proximity graph with the
   * positions as vertex property, and extract the features.
   */
  method ProcessGraph(centroids: seq<Point>, types: seq<int>, name: string, cellDist: real, analyse: Analyser)
    returns (g: Graph, f: Result<map<string, Cell>, FeatureError>, points: seq<Point>)
    requires Sound(analyse)
    ensures fresh(g) && g.Valid()
    ensures points == KeptPoints(centroids, types)
    ensures g.n == |points| && g.pos == points && g.edges == EdgesWithin(points, cellDist)
    ensures g.weight.Some? && |g.weight.value| == |g.edges|
    ensures forall k :: 0 <= k < |g.edges| ==>
              g.weight.value[k] == SqDist(g.pos[g.edges[k].v], g.pos[g.edges[k].u])
    ensures f == ImageFeatures(name, MatData(centroids, types), cellDist, analyse)
  {
    points := FilterPoints(centroids, types);
    g := new Graph.Geometric(points, cellDist);
    f := GetFeature(g, name, analyse(points, g.edges));
  }

  // ------------------------------------------------------------ check_count

  /** check_count: whether label 2 (lymphocyte) occurs among the instance types. */
  function CheckCount(types: seq<int>): (present: bool)
    ensures present <==> exists i :: 0 <= i < |types| && types[i] == 2
  {
    var uni := Distinct(types);
    2 in uni
  }

  // ------------------------------------------------------------------ names

  function EndsWith(s: string, suffix: string): bool
  {
    |suffix| <= |s| && s[|s| - |suffix|..] == suffix
  }

  /** f.split('.')[0]: the prefix of f before its first dot, or f when it has none. */
  function BaseName(f: string): (b: string)
    ensures '.' !in b
    ensures |b| <= |f| && b == f[..|b|]
    ensures |b| < |f| ==> f[|b|] == '.'
  {
    if f == [] || f[0] == '.' then [] else [f[0]] + BaseName(f[1..])
  }

  /** The number of dots in a file name. */
  function DotCount(s: string): nat
  {
    if s == [] then 0 else (if s[0] == '.' then 1 else 0) + DotCount(s[1..])
  }

  /** The names derived from the first n listed files. */
  function MatNamesUpTo(files: seq<string>, n: nat): (names: seq<string>)
    requires n <= |files|
    ensures |names| <= n
    ensures forall k :: 0 <= k < |names| ==> '.' !in names[k]
  {
    if n == 0 then []
    else MatNamesUpTo(files, n - 1) + if EndsWith(files[n - 1], ".mat") then [BaseName(files[n - 1])] else []
  }

  /** The ROI names: the base name of every listed file ending in ".mat", in listing order. */
  function MatNames(files: seq<string>): (names: seq<string>)
    ensures |names| <= |files|
    ensures forall k :: 0 <= k < |names| ==> '.' !in names[k]
  {
    MatNamesUpTo(files, |files|)
  }

  /** The indices below n of the listed files ending in ".mat", ascending. */
  function MatIndices(files: seq<string>, n: nat): seq<nat>
    requires n <= |files|
  {
    if n == 0 then [] else MatIndices(files, n - 1) + if EndsWith(files[n - 1], ".mat") then [n - 1] else []
  }

  /** The .mat files among the first n listed files, as a set of positions. */
  function MatPositions(files: seq<string>, n: nat): set<nat>
    requires n <= |files|
  {
    set i: nat | i < n && EndsWith(files[i], ".mat")
  }

  /** MatIndices lists exactly the .mat positions below n, strictly increasing. */
  lemma {:induction false} MatIndicesExact(files: seq<string>, n: nat)
    requires n <= |files|
    ensures forall i :: i in MatIndices(files, n) <==> i in MatPositions(files, n)
    ensures forall k, l :: 0 <= k < l < |MatIndices(files, n)| ==> MatIndices(files, n)[k] < MatIndices(files, n)[l]
  {
    if n > 0 {
      MatIndicesExact(files, n - 1);
      var prev := MatIndices(files, n - 1);
      assert forall k :: 0 <= k < |prev| ==> prev[k] in prev;
    }
  }

  /** The k-th name is the base name of the file at the k-th .mat position. */
  lemma {:induction false} MatNamesGather(files: seq<string>, n: nat)
    requires n <= |files|
    ensures |MatNamesUpTo(files, n)| == |MatIndices(files, n)|
    ensures forall k :: 0 <= k < |MatIndices(files, n)| ==>
              MatIndices(files, n)[k] < n && MatNamesUpTo(files, n)[k] == BaseName(files[MatIndices(files, n)[k]])
  {
    if n > 0 {
      MatNamesGather(files, n - 1);
      MatIndicesExact(files, n - 1);
      var prev := MatIndices(files, n - 1);
      assert forall k :: 0 <= k < |prev| ==> prev[k] in prev;
    }
  }

  /** There is one name per listed .mat file. */
  lemma {:induction false} MatNamesCount(files: seq<string>, n: nat)
    requires n <= |files|
    ensures |MatNamesUpTo(files, n)| == |MatPositions(files, n)|
  {
    if n > 0 {
      MatNamesCount(files, n - 1);
      var prev := MatPositions(files, n - 1);
      if EndsWith(files[n - 1], ".mat") {
        assert MatPositions(files, n) == prev + {n - 1};
      } else {
        assert MatPositions(files, n) == prev;
      }
    }
  }

  /**
   * The names are exactly the base names of the listed .mat files, one per
   * file and in listing order: names[k] comes from the file at idx[k], where
   * idx is the strictly increasing list of every .mat position.
   */
  lemma MatNamesExact(files: seq<string>)
    ensures var idx := MatIndices(files, |files|);
            && |MatNames(files)| == |idx| == |MatPositions(files, |files|)|
            && (forall i :: i in idx <==> 0 <= i < |files| && EndsWith(files[i], ".mat"))
            && (forall k, l :: 0 <= k < l < |idx| ==> idx[k] < idx[l])
            && (forall k :: 0 <= k < |idx| ==> idx[k] < |files| && MatNames(files)[k] == BaseName(files[idx[k]]))
    ensures forall i :: 0 <= i < |files| && EndsWith(files[i], ".mat") ==> BaseName(files[i]) in MatNames(files)
  {
    var idx := MatIndices(files, |files|);
    MatIndicesExact(files, |files|);
    MatNamesGather(files, |files|);
    MatNamesCount(files, |files|);
    forall i | 0 <= i < |files| && EndsWith(files[i], ".mat")
      ensures BaseName(files[i]) in MatNames(files)
    {
      assert i in MatPositions(files, |files|);
      var k :| 0 <= k < |idx| && idx[k] == i;
      assert MatNames(files)[k] == BaseName(files[i]);
    }
  }

  /** Every name comes from a listed .mat file: names[k] is the base name of some listed f. */
  lemma MatNameOrigin(files: seq<string>, k: nat) returns (f: string)
    requires k < |MatNames(files)|
    ensures f in files && EndsWith(f, ".mat") && MatNames(files)[k] == BaseName(f)
  {
    MatNamesExact(files);
    var idx := MatIndices(files, |files|);
    assert idx[k] in idx;
    f := files[idx[k]];
  }

  lemma {:induction false} DotCountConcat(a: string, b: string)
    ensures DotCount(a + b) == DotCount(a) + DotCount(b)
  {
    if a == [] {
      assert a + b == b;
    } else {
      assert (a + b)[0] == a[0];
      assert (a + b)[1..] == a[1..] + b;
      DotCountConcat(a[1..], b);
    }
  }

  lemma {:induction false} DotCountPositive(s: string, i: nat)
    requires i < |s| && s[i] == '.'
    ensures DotCount(s) >= 1
  {
    if i > 0 {
      DotCountPositive(s[1..], i - 1);
    }
  }

  lemma {:induction false} DotCountZero(s: string)
    requires '.' !in s
    ensures DotCount(s) == 0
  {
    if s != [] {
      assert forall c :: c in s[1..] ==> c in s;
      DotCountZero(s[1..]);
    }
  }

  /** The base name stops at or before any dot. */
  lemma {:induction false} BaseNameStops(f: string, i: nat)
    requires i < |f| && f[i] == '.'
    ensures |BaseName(f)| <= i
  {
    if f[0] != '.' {
      BaseNameStops(f[1..], i - 1);
    }
  }

  /**
   * main opens name + ".mat" for a listed file f: that reproduces f exactly
   * when f holds a single dot, and names another file otherwise.
   */
  lemma NameRoundTrip(f: string)
    requires EndsWith(f, ".mat")
    ensures BaseName(f) + ".mat" == f <==> DotCount(f) == 1
  {
    var b := BaseName(f);
    var ext := |f| - 4;
    assert f[ext..] == ".mat";
    assert f[ext] == '.';
    assert f == f[..ext] + f[ext..];
    assert DotCount(".mat") == 1;
    BaseNameStops(f, ext);
    DotCountZero(b);
    if |b| == ext {
      DotCountConcat(b, ".mat");
    } else {
      DotCountConcat(f[..ext], f[ext..]);
      DotCountPositive(f[..ext], |b|);
      assert |b + ".mat"| != |f|;
    }
  }

  // ------------------------------------------------------------- batch loop

  /** What the loop body of main yields for one name: read_files, then process_graph. */
  function ImageRow(name: string, matDir: map<string, MatData>, pngs: set<string>, cellDist: real, analyse: Analyser)
    : (r: Result<map<string, Cell>, RunError>)
    requires Sound(analyse)
    ensures r.Ok? ==> r.value.Keys == (set c | c in Columns) && r.value["ROI"] == Text(name)
    ensures r.Ok? <==> && name + ".png" in pngs && name + ".mat" in matDir
                       && |KeptPoints(matDir[name + ".mat"].centroids, matDir[name + ".mat"].types)| > 0
  {
    if name + ".png" !in pngs then Err(FileNotFound(name + ".png"))
    else if name + ".mat" !in matDir then Err(FileNotFound(name + ".mat"))
    else
      match ImageFeatures(name, matDir[name + ".mat"], cellDist, analyse)
      case Ok(row) => Ok(row)
      case Err(e) => Err(FeatureFailed(e))
  }

  /** One pass of the loop body of main: read_files for the name, then process_graph. */
  method ProcessImage(name: string, matDir: map<string, MatData>, pngs: set<string>, cellDist: real, analyse: Analyser)
    returns (r: Result<map<string, Cell>, RunError>)
    requires Sound(analyse)
    ensures r == ImageRow(name, matDir, pngs, cellDist, analyse)
  {
    if name + ".png" !in pngs {
      return Err(FileNotFound(name + ".png"));
    }
    if name + ".mat" !in matDir {
      return Err(FileNotFound(name + ".mat"));
    }
    var m := matDir[name + ".mat"];
    var g, f, points := ProcessGraph(m.centroids, m.types, name, cellDist, analyse);
    match f {
      case Err(e) => r := Err(FeatureFailed(e));
      case Ok(row) => r := Ok(row);
    }
  }

  /**
   * Gathers per-item results in order: all values when every item
   * succeeded, otherwise the error of the first failing item.
   */
  function Collect<T, E>(rs: seq<Result<T, E>>): (r: Result<seq<T>, E>)
    ensures r.Ok? ==> |r.value| == |rs|
  {
    if rs == [] then Ok([])
    else
      match Collect(rs[..|rs| - 1])
      case Err(e) => Err(e)
      case Ok(vs) =>
        match rs[|rs| - 1]
        case Err(e) => Err(e)
        case Ok(v) => Ok(vs + [v])
  }

  /** One more item after a successful prefix: its error, or its value appended. */
  lemma CollectStep<T, E>(rs: seq<Result<T, E>>, k: nat, vs: seq<T>)
    requires k < |rs| && Collect(rs[..k]) == Ok(vs)
    ensures Collect(rs[..k + 1]) == if rs[k].Ok? then Ok(vs + [rs[k].value]) else Err(rs[k].error)
  {
    assert rs[..k + 1][..k] == rs[..k];
  }

  /** Once a prefix fails, the whole collection fails with the same error. */
  lemma {:induction false} CollectSticky<T, E>(rs: seq<Result<T, E>>, k: nat)
    requires k <= |rs| && Collect(rs[..k]).Err?
    ensures Collect(rs) == Collect(rs[..k])
  {
    if k == |rs| {
      assert rs[..k] == rs;
    } else {
      var init := rs[..|rs| - 1];
      assert init[..k] == rs[..k];
      CollectSticky(init, k);
    }
  }

  /** The collection succeeds exactly when every item does, and then holds their values in order. */
  lemma {:induction false} CollectValues<T, E>(rs: seq<Result<T, E>>)
    ensures Collect(rs).Ok? <==> forall k :: 0 <= k < |rs| ==> rs[k].Ok?
    ensures Collect(rs).Ok? ==> forall k :: 0 <= k < |rs| ==> Collect(rs).value[k] == rs[k].value
  {
    if rs != [] {
      var init := rs[..|rs| - 1];
      CollectValues(init);
      assert forall k :: 0 <= k < |init| ==> init[k] == rs[k];
    }
  }

  /** A failed collection carries the error of its first failing item. */
  lemma {:induction false} CollectFirstError<T, E>(rs: seq<Result<T, E>>)
    requires Collect(rs).Err?
    ensures exists k :: && 0 <= k < |rs| && rs[k] == Err(Collect(rs).error)
                        && forall j :: 0 <= j < k ==> rs[j].Ok?
  {
    var init := rs[..|rs| - 1];
    assert forall k :: 0 <= k < |init| ==> init[k] == rs[k];
    if Collect(init).Err? {
      CollectFirstError(init);
      var k :| 0 <= k < |init| && init[k] == Err(Collect(init).error) && forall j :: 0 <= j < k ==> init[j].Ok?;
      assert rs[k] == Err(Collect(rs).error);
    } else {
      CollectValues(init);
      assert rs[|init|] == Err(Collect(rs).error);
    }
  }

  /** The outcome of the loop body of main for each name, in order. */
  function ImageRows(names: seq<string>, matDir: map<string, MatData>, pngs: set<string>, cellDist: real, analyse: Analyser)
    : (rs: seq<Result<map<string, Cell>, RunError>>)
    requires Sound(analyse)
  {
    seq(|names|, k requires 0 <= k < |names| => ImageRow(names[k], matDir, pngs, cellDist, analyse))
  }

  /** One pass of the loop of main: the rows so far, extended by image k's row or cut by its error. */
  method AppendRow(names: seq<string>, k: nat, df: seq<map<string, Cell>>,
                   matDir: map<string, MatData>, pngs: set<string>, cellDist: real, analyse: Analyser)
    returns (next: Result<seq<map<string, Cell>>, RunError>)
    requires Sound(analyse) && k < |names|
    requires Collect(ImageRows(names, matDir, pngs, cellDist, analyse)[..k]) == Ok(df)
    ensures next == Collect(ImageRows(names, matDir, pngs, cellDist, analyse)[..k + 1])
  {
    ghost var results := ImageRows(names, matDir, pngs, cellDist, analyse);
    var row := ProcessImage(names[k], matDir, pngs, cellDist, analyse);
    assert row == results[k];
    CollectStep(results, k, df);
    if row.Err? {
      next := Err(row.error);
    } else {
      next := Ok(df + [row.value]);
    }
  }

  /**
   * The loop of main: for each name in order process the image and append
   * its row; the first failing image aborts the run.
   */
  method AccumulateRows(names: seq<string>, matDir: map<string, MatData>, pngs: set<string>, cellDist: real, analyse: Analyser)
    returns (r: Result<seq<map<string, Cell>>, RunError>)
    requires Sound(analyse)
    ensures r == Collect(ImageRows(names, matDir, pngs, cellDist, analyse))
  {
    ghost var results := ImageRows(names, matDir, pngs, cellDist, analyse);
    var df: seq<map<string, Cell>> := [];
    for k := 0 to |names|
      invariant Collect(results[..k]) == Ok(df)
    {
      var next := AppendRow(names, k, df, matDir, pngs, cellDist, analyse);
      if next.Err? {
        r := next;
        CollectSticky(results, k + 1);
        return;
      }
      df := next.value;
    }
    assert results[..|names|] == results;
    r := Ok(df);
  }

  /** main: derive the names from the listing, then accumulate one row per name. */
  method RunBatch(files: seq<string>, matDir: map<string, MatData>, pngs: set<string>, cellDist: real, analyse: Analyser)
    returns (r: Result<seq<map<string, Cell>>, RunError>)
    requires Sound(analyse)
    ensures r == Collect(ImageRows(MatNames(files), matDir, pngs, cellDist, analyse))
  {
    var names := MatNames(files);
    r := AccumulateRows(names, matDir, pngs, cellDist, analyse);
  }

  /**
   * When every listed .mat file has a single dot, is readable, has its image
   * beside it and holds at least one type-1 cell, every image yields a row
   * and the run produces the full table, one row per listed .mat file.
   */
  lemma AllImagesProcessed(files: seq<string>, matDir: map<string, MatData>, pngs: set<string>, cellDist: real, analyse: Analyser)
    requires Sound(analyse)
    requires forall f :: f in files && EndsWith(f, ".mat") ==>
               && DotCount(f) == 1 && f in matDir && BaseName(f) + ".png" in pngs
               && |KeptPoints(matDir[f].centroids, matDir[f].types)| > 0
    ensures var table := Collect(ImageRows(MatNames(files), matDir, pngs, cellDist, analyse));
            table.Ok? && |table.value| == |MatNames(files)| == |MatPositions(files, |files|)|
  {
    var names := MatNames(files);
    MatNamesExact(files);
    var rs := ImageRows(names, matDir, pngs, cellDist, analyse);
    forall k | 0 <= k < |names| ensures rs[k].Ok? {
      var f := MatNameOrigin(files, k);
      NameRoundTrip(f);
      assert rs[k] == ImageRow(names[k], matDir, pngs, cellDist, analyse);
    }
    CollectValues(rs);
  }
}
