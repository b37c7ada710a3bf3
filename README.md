# Lymphocyte spatial characterization — a Dafny model of the graph features and the patch loaders

This project models the computational core of the lymphocyte spatial
characterization pipeline:

- **Cell graph batch driver** (`run_graph.py`). It keeps the centroids whose instance type
  is 1 and builds graph_tool's proximity graph over them. It also answers whether an image
  holds lymphocytes, derives ROI names from the `.mat` listing, and accumulates one feature
  row per image. The first failing image stops the run.
- **Feature extractor** `get_feature` (`utils.py`). It stores a weight on every edge and
  takes one eccentricity per vertex. It then reduces the outputs of the graph_tool
  algorithms to a record of 17 named columns.
- **Patch iterators of the inference loader** (`infer_loader.py`). `SerializeFileList`
  cuts a list of images into patches and can shard the patch list over data-loader workers.
  Each worker rebases image indices onto its own slice of the image list.
  `SerializeArray` reads patches out of one image by position.

Files:

- `wrappers.dfy`: `Option` and `Result`.
- `reductions.dfy` (module `Reductions`): the numpy reductions, over exact reals.
- `graphs.dfy` (module `Graphs`): points, the radius edge relation, the edge-building
  loop and the graph object.
- `features.dfy` (module `Features`): `get_feature`.
- `run_graph.dfy` (module `RunGraph`): `process_graph`, `check_count`, the names and the
  batch loop.
- `infer_loader.dfy` (module `InferLoader`): Python indexing and slicing, worker shards,
  and the two dataset classes.

Outside effects arrive as values:

- The directory listing is a sequence of file names.
- The `.mat` files are a map from file name to centroids and types.
- The images present are a set of names.
- `torch.utils.data.get_worker_info()` is an `Option<WorkerInfo>` argument.
- The graph_tool algorithms are a function `Analyser` from the graph to their outputs
  (`Analysis`). `Sound` requires of it the output shapes graph_tool guarantees, and that each source's
  distance to itself is 0.

## Model

All source paths are relative to the repository root.

| member | source | states |
|---|---|---|
| `Reductions.Max` | spatial_characterization/cell_graph/utils.py:42 | np.max of a non-empty array bounds every entry and is one of them |
| `Reductions.CountAbove` | spatial_characterization/cell_graph/utils.py:61 | np.sum(s > t) is at most len(s), and equals len(s) exactly when every entry exceeds t |
| `Reductions.CountEqual` | spatial_characterization/cell_graph/utils.py:53 | np.sum(s == t) is at most len(s), and is 0 exactly when no entry equals t |
| `Reductions.SumAboveMask` | spatial_characterization/cell_graph/utils.py:61 | summing the boolean mask s > t gives the number of entries above t |
| `Reductions.MeanAtMostMax` | spatial_characterization/cell_graph/utils.py:40-42 | np.mean never exceeds np.max |
| `Reductions.MeanNonNegative` | spatial_characterization/cell_graph/utils.py:40 | the mean of non-negative entries is non-negative |
| `Reductions.NotAllAboveMean` | spatial_characterization/cell_graph/utils.py:61 | fewer than len(s) entries lie strictly above np.mean(s) |
| `Reductions.LeastAtMostMean` | spatial_characterization/cell_graph/utils.py:61 | the least entry is at most the mean, so some entry is not above the mean |
| `Reductions.MaxAttained` | spatial_characterization/cell_graph/utils.py:49-53 | the maximum occurs between 1 and len(s) times |
| `Reductions.DistinctBounds` | spatial_characterization/cell_graph/utils.py:51 | np.unique of a non-empty array has between 1 and len(s) values |
| `Graphs.SqDistSymmetric` | spatial_characterization/cell_graph/utils.py:30 | the edge length does not depend on which endpoint is the source |
| `Graphs.RowPairsMembers` | spatial_characterization/cell_graph/run_graph.py:44 | row i holds exactly the pairs (i, v), i < v, whose points lie within the radius |
| `Graphs.PairsBeforeExact` | spatial_characterization/cell_graph/run_graph.py:44 | the pairs before i are exactly the qualifying pairs with smaller endpoint below i, and they form a simple, strictly ordered list |
| `Graphs.EdgesWithinExact` | spatial_characterization/cell_graph/run_graph.py:43-45 | geometric_graph's undirected graph: i and j are adjacent iff they are distinct and within the radius; the edge list is simple |
| `Graphs.NoDuplicateEdges` | spatial_characterization/cell_graph/run_graph.py:44-45 | the undirected graph never lists the same edge twice |
| `Graphs.BuildEdges` | spatial_characterization/cell_graph/run_graph.py:44 | the nested loop over point pairs returns exactly the radius edge list |
| `Graphs.Graph.Geometric` | spatial_characterization/cell_graph/run_graph.py:43-46 | one vertex per point, isolated points included; the positions are stored; the edges are the radius edges; no weight yet |
| `Features.EdgeWeights` | spatial_characterization/cell_graph/utils.py:28-31 | one weight per edge, the squared distance between target and source positions |
| `Features.WeightsWithinRadius` | spatial_characterization/cell_graph/utils.py:28-30 | on the proximity graph of radius r every edge weight is at most r squared |
| `Features.MaxFinite` | spatial_characterization/cell_graph/utils.py:39 | max over the finite distances: absent iff all are inf, otherwise attained and an upper bound of every finite distance |
| `Features.Eccentricity` | spatial_characterization/cell_graph/utils.py:38-39 | a vertex's largest finite distance is non-negative, attained, and bounds its finite distances |
| `Features.Eccentricities` | spatial_characterization/cell_graph/utils.py:36-39 | the vertex loop gives one non-negative eccentricity per vertex, bounding that vertex's distances |
| `Features.Degrees` | spatial_characterization/cell_graph/utils.py:44 | one total degree per vertex, the number of incident edges |
| `Features.Handshake` | spatial_characterization/cell_graph/utils.py:44 | on a loop-free edge list the total degrees sum to twice the edge count |
| `Features.MeanDegreeHandshake` | spatial_characterization/cell_graph/utils.py:44 | avg_degree equals 2 * edges / vertices |
| `Features.Summarise` | spatial_characterization/cell_graph/utils.py:40-61 | the reduction fails exactly when the graph has no vertex (np.max of the empty dist_list); num_nodes is the vertex count |
| `Features.Record` | spatial_characterization/cell_graph/utils.py:67 | new_f has exactly the 17 table columns as keys, and ROI is the name |
| `Features.GetFeature` | spatial_characterization/cell_graph/utils.py:25-68 | stores the weight property on the graph, leaves vertices, edges and positions unchanged, and returns the record or the error |
| `Features.DistanceFeatures` | spatial_characterization/cell_graph/utils.py:36-42 | 0 <= avg_dist <= diameter, and the diameter bounds every finite shortest distance |
| `Features.DegreeFeature` | spatial_characterization/cell_graph/utils.py:44-46 | on a non-empty graph avg_degree is twice the edge count over num_nodes |
| `Features.KcoreFeatures` | spatial_characterization/cell_graph/utils.py:48-53 | max_kcore bounds every core number and mean_kcore; between 1 and num_nodes vertices attain it; between 1 and num_nodes distinct core numbers |
| `Features.BetweennessFeature` | spatial_characterization/cell_graph/utils.py:59-61 | num_high_betweenness is a fraction in [0, 1) |
| `RunGraph.KeptIndicesExact` | spatial_characterization/cell_graph/run_graph.py:36-37 | the kept indices are exactly the positions whose type is 1, in increasing order |
| `RunGraph.KeepGathers` | spatial_characterization/cell_graph/run_graph.py:36-39 | the k-th kept point is the centroid at the k-th kept index |
| `RunGraph.FilterExact` | spatial_characterization/cell_graph/run_graph.py:35-39 | the point set is the type-1 centroids of the zipped prefix, in input order |
| `RunGraph.FilterPoints` | spatial_characterization/cell_graph/run_graph.py:35-40 | the append loop builds exactly that point set |
| `RunGraph.ProcessGraph` | spatial_characterization/cell_graph/run_graph.py:32-49 | returns a new graph with one vertex per kept point, the radius edges and the positions; one stored weight per edge, the squared distance between its endpoints; plus the features of that graph |
| `RunGraph.CheckCount` | spatial_characterization/cell_graph/run_graph.py:51-63 | true exactly when label 2 (lymphocyte) occurs among the types |
| `RunGraph.BaseName` | spatial_characterization/cell_graph/run_graph.py:96 | f.split('.')[0] is the dot-free prefix of f that stops at its first dot |
| `RunGraph.MatNames` | spatial_characterization/cell_graph/run_graph.py:96 | at most one name per listed file, none containing a dot |
| `RunGraph.MatIndicesExact` | spatial_characterization/cell_graph/run_graph.py:96 | the .mat positions of the listing, each once and strictly increasing |
| `RunGraph.MatNamesGather` | spatial_characterization/cell_graph/run_graph.py:96 | the k-th name is the base name of the file at the k-th .mat position |
| `RunGraph.MatNamesCount` | spatial_characterization/cell_graph/run_graph.py:96 | there are exactly as many names as listed files ending in .mat |
| `RunGraph.MatNamesExact` | spatial_characterization/cell_graph/run_graph.py:96 | the names are the base names of exactly the listed .mat files, one per file, in listing order; every listed .mat file contributes its name |
| `RunGraph.MatNameOrigin` | spatial_characterization/cell_graph/run_graph.py:96 | every name is the base name of some listed file ending in .mat |
| `RunGraph.NameRoundTrip` | spatial_characterization/cell_graph/run_graph.py:96-101 | name + ".mat" reopens the listed file exactly when that file has a single dot |
| `RunGraph.ImageRow` | spatial_characterization/cell_graph/run_graph.py:100-116 | an image yields a row iff its .png and .mat exist and it has a type-1 cell; the row has the 17 columns and its ROI is the name |
| `RunGraph.ProcessImage` | spatial_characterization/cell_graph/run_graph.py:100-116 | the loop body reads the files, processes the graph and yields that image's row or error |
| `RunGraph.Collect` | spatial_characterization/cell_graph/run_graph.py:116 | a successful collection has one row per item |
| `RunGraph.CollectStep` | spatial_characterization/cell_graph/run_graph.py:112-116 | after a successful prefix, one more item appends its row or fails with its error |
| `RunGraph.CollectSticky` | spatial_characterization/cell_graph/run_graph.py:99-116 | once an image fails, the run fails with that error |
| `RunGraph.CollectValues` | spatial_characterization/cell_graph/run_graph.py:99-116 | the run succeeds iff every image does, and then row k is image k's row |
| `RunGraph.CollectFirstError` | spatial_characterization/cell_graph/run_graph.py:99-116 | a failed run reports the error of the first failing image, and every earlier image succeeded |
| `RunGraph.AppendRow` | spatial_characterization/cell_graph/run_graph.py:99-116 | one pass of main's loop extends the rows collected so far by the image's row, or ends with its error |
| `RunGraph.AccumulateRows` | spatial_characterization/cell_graph/run_graph.py:99-116 | main's loop produces the table of all rows in name order, or the first image's error |
| `RunGraph.RunBatch` | spatial_characterization/cell_graph/run_graph.py:96-116 | main produces the table of all rows in listing order, or the first image's error |
| `RunGraph.AllImagesProcessed` | spatial_characterization/cell_graph/run_graph.py:96-116 | if every listed .mat file has one dot, is present, has its image and has a type-1 cell, then the table has one row per listed .mat file |
| `InferLoader.PyIndex` | spatial_characterization/cell_segmentation/dataloader/infer_loader.py:70 | s[i] exists iff -len <= i < len, and a non-negative i reads s[i] |
| `InferLoader.SliceBound` | spatial_characterization/cell_segmentation/dataloader/infer_loader.py:51-53 | a slice bound is clipped into [0, len], and a non-negative bound becomes min(i, len) |
| `InferLoader.PySlice` | spatial_characterization/cell_segmentation/dataloader/infer_loader.py:51-53 | s[lo:hi] with 0 <= lo <= hi is the contiguous run between the clipped bounds |
| `InferLoader.CeilDivBounds` | spatial_characterization/cell_segmentation/dataloader/infer_loader.py:46-47 | per_worker is the least q with q * num_workers >= len |
| `InferLoader.ShardSlice` | spatial_characterization/cell_segmentation/dataloader/infer_loader.py:46-53 | the worker's patch list is patch_info_list[id * pw : id * pw + pw] |
| `InferLoader.ShardsAdjacent` | spatial_characterization/cell_segmentation/dataloader/infer_loader.py:49-50 | worker id stops where worker id + 1 starts |
| `InferLoader.ShardsDisjoint` | spatial_characterization/cell_segmentation/dataloader/infer_loader.py:49-53 | the shards of two different workers never overlap |
| `InferLoader.ShardsPrefix` | spatial_characterization/cell_segmentation/dataloader/infer_loader.py:49-53 | the first k shards concatenated are the list up to where shard k starts |
| `InferLoader.ShardsReassemble` | spatial_characterization/cell_segmentation/dataloader/infer_loader.py:46-53 | all workers' shards concatenated in id order give back the whole patch list, so every patch goes to exactly one worker |
| `InferLoader.ShardEmptyIff` | spatial_characterization/cell_segmentation/dataloader/infer_loader.py:49-57 | a worker's shard is empty exactly when id * pw >= len |
| `InferLoader.LastShardEmpty` | spatial_characterization/cell_segmentation/dataloader/infer_loader.py:46-57 | with fewer patches than workers, the last worker's shard is empty |
| `InferLoader.EmptyWorkerShard` | spatial_characterization/cell_segmentation/dataloader/infer_loader.py:51-57 | one patch and two workers: worker 1's shard is empty |
| `InferLoader.ShardProtocol` | spatial_characterization/cell_segmentation/dataloader/infer_loader.py:56-58 | a shard of a patch list whose image indices are in range and non-decreasing keeps that property |
| `InferLoader.SingleResolves` | spatial_characterization/cell_segmentation/dataloader/infer_loader.py:41-44 | without sharding, every patch's image index finds its image |
| `InferLoader.RebaseResolves` | spatial_characterization/cell_segmentation/dataloader/infer_loader.py:56-60 | after rebasing, img_list[img - start] is the original image img, for every patch of the shard |
| `InferLoader.SerializeFileList.constructor` | spatial_characterization/cell_segmentation/dataloader/infer_loader.py:23-37 | stores the lists and the patch size; all indices start at 0 |
| `InferLoader.SerializeFileList.Iter` | spatial_characterization/cell_segmentation/dataloader/infer_loader.py:39-63 | without a worker: stop indices are the full lengths. In a worker: the patch list becomes the worker's shard, fails iff it is empty, and otherwise the image list becomes the slice the shard refers to. Either way every patch's image still resolves |
| `InferLoader.SerializeFileList.IterWorker` | spatial_characterization/cell_segmentation/dataloader/infer_loader.py:45-63 | the worker branch: shard, cursor reset, failure iff the shard is empty (images untouched then), image rebasing otherwise |
| `InferLoader.SerializeFileList.IterWorkerGuarded` | spatial_characterization/cell_segmentation/dataloader/infer_loader.py:45-63 | the worker branch with the empty shard guarded: it always succeeds, and an empty shard leaves an exhausted iterator over no images with workerStartImgIdx unchanged |
| `InferLoader.SerializeFileList.NarrowPatches` | spatial_characterization/cell_segmentation/dataloader/infer_loader.py:46-55 | the patch list becomes the worker's shard and the patch cursor restarts over it |
| `InferLoader.SerializeFileList.Next` | spatial_characterization/cell_segmentation/dataloader/infer_loader.py:65-78 | StopIteration iff the cursor is at its stop; IndexError iff the rebased image index is out of range; otherwise returns the patch cut at the entry's corner and its entry, and advances the cursor by one. After a successful __iter__ it never fails and yields the original image |
| `InferLoader.SerializeArray.constructor` | spatial_characterization/cell_segmentation/dataloader/infer_loader.py:127-151 | stores the image, the patch list and the patch size |
| `InferLoader.SerializeArray.GetItem` | spatial_characterization/cell_segmentation/dataloader/infer_loader.py:156-165 | item idx exists iff -len <= idx < len; it is the entry at that Python index, with the patch cut from the image at the entry's corner |
| `InferLoader.SerializeArray.Len` | spatial_characterization/cell_segmentation/dataloader/infer_loader.py:153-154 | the length is the patch count, and every index below it yields its own entry |

## Findings

| source | as written | input that shows it | evidently intended | confidence | as-written member | corrected member |
|---|---|---|---|---|---|---|
| spatial_characterization/cell_segmentation/dataloader/infer_loader.py:57 | a worker reads `patch_info_list[0]` of its shard without checking that the shard is non-empty | 1 patch and 2 workers: per_worker = 1, so worker 1's shard is `patch_info_list[1:2] == []` and line 57 raises IndexError. The same happens whenever there are fewer patches than workers, and also for 5 patches and 4 workers | a worker with an empty shard has nothing to yield | high; not executed | `InferLoader.EmptyWorkerShard` | `InferLoader.SerializeFileList.IterWorkerGuarded` |

`InferLoader.LastShardEmpty` generalises the counterexample: with fewer patches than
workers, the last worker's shard is empty. `IterWorker`, which `Iter` calls, keeps the
behaviour as written: its `ShardEmpty` outcome is the IndexError. `IterWorkerGuarded` is
the corrected branch and always succeeds.

## Left out

- Reading images and `.mat` files, and drawing, saving and writing the CSV. These are
  I/O; their contents arrive as values (`MatData`, the image name set, the listing).
- `check_count`'s message printing. Only its boolean result is modelled.
- The graph_tool algorithms, taken as an input function: global_clustering,
  shortest_distance, kcore_decomposition, assortativity, betweenness,
  central_point_dominance and eigenvector. Only the shape of their outputs is assumed, and that each source's distance to itself is 0.
  As in the code, they run on the graph as built: betweenness and clustering are
  unweighted even though a weight property is stored.
- `Features.EdgeWeights`: does not model the square root in `np.linalg.norm`, because
  Dafny's reals have no square root. Each weight is the SQUARED Euclidean length.
  `Features.WeightsWithinRadius` therefore bounds it by r squared.
- Floating-point rounding. All reductions are over exact reals. The float ceiling
  `int(math.ceil(len / float(w)))` is modelled as the exact integer ceiling (`CeilDiv`),
  which can differ from the float value only for lengths beyond 2^53.
- `Features.Summarise`: num_high_betweenness is the mean of the 0/1 mask of
  betweenness values above their mean. This equals `np.sum(vb > mean) / num_vertices`
  because there is one betweenness value per vertex. The lemma
  `Reductions.SumAboveMask` connects the two.
- The empty graph. With no vertices, `get_feature` raises at utils.py:42 (np.max over the
  empty dist_list). The model returns the error `ZeroSizeMax` and does not require a vertex.
- Edge order. geometric_graph's internal edge order is not documented. The model's own
  choice is lexicographic (u, v) order with u < v. Only the fact that each edge is listed
  once matches the undirected graph (`set_directed(False)`).
- `preproc` in both dataset classes. It transforms pixel data, and patch pixel contents
  are not modelled: a patch is its source image plus its row and column ranges.
- `InferLoader.SerializeArray.constructor`: does not model loading the memory-mapped
  array, the temporary PNG round trip, or the stain normalisation (`get_mask`,
  `get_transformed_image`). These are image processing and I/O. The image is taken as
  an opaque value.
- `SerializeFileList` fields `currImgIdx` and `stopImgIdx`. They are set by `__iter__`
  as in the code, but `__next__` never reads them.
- torch's multi-process behaviour: each worker's `__iter__` is modelled on one object,
  with no copying between processes.
