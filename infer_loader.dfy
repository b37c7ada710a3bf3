/**
 * The patch iterators of the inference data loader: SerializeFileList cuts
 * a list of images into fixed-size patches described by a patch-info list,
 * optionally sharded over data-loader workers; SerializeArray reads patches
 * out of one image by position. Patches are modelled by their index ranges;
 * pixel contents are not modelled, so images are an opaque type Img.
 */
module InferLoader {
  import opened Wrappers
  import opened Reductions

  /** One patch_info entry: its top-left corner and, last, the index of its image. */
  datatype PatchInfo = PatchInfo(row: int, col: int, img: int)

  /** torch.utils.data.get_worker_info(): this worker's id and the worker count. */
  datatype WorkerInfo = WorkerInfo(id: nat, numWorkers: nat)

  /** img[rowLo:rowHi, colLo:colHi]: a patch as the index ranges cut from its image. */
  datatype Patch<Img> = Patch(image: Img, rowLo: int, rowHi: int, colLo: int, colHi: int)

  // ------------------------------------------------- Python list semantics

  /** s[i]: negative indices count from the end; None stands for IndexError. */
  function PyIndex<T>(s: seq<T>, i: int): (r: Option<T>)
    ensures r.Some? <==> -|s| <= i < |s|
    ensures 0 <= i < |s| ==> r == Some(s[i])
  {
    if 0 <= i < |s| then Some(s[i])
    else if -|s| <= i < 0 then Some(s[i + |s|])
    else None
  }

  /** A slice bound as Python reads it: negative counts from the end, then clipped to [0, len]. */
  function SliceBound(i: int, len: nat): (b: nat)
    ensures b <= len
    ensures 0 <= i ==> b == Min(i, len)
  {
    if i < 0 then (if i + len < 0 then 0 else i + len)
    else if i > len then len
    else i
  }

  /** s[lo:hi] with step 1. */
  function PySlice<T>(s: seq<T>, lo: int, hi: int): (r: seq<T>)
    ensures |r| <= |s|
    ensures 0 <= lo <= hi ==> r == s[Min(lo, |s|)..Min(hi, |s|)]
  {
    var a, b := SliceBound(lo, |s|), SliceBound(hi, |s|);
    if a < b then s[a..b] else []
  }

  // ------------------------------------------------------------- sharding

  /** int(math.ceil(n / float(w))), counted out one block of w at a time. */
  function CeilDiv(n: nat, w: nat): nat
    requires w > 0
  {
    if n == 0 then 0 else CeilDiv(n - Min(n, w), w) + 1
  }

  /** CeilDiv is the ceiling of n / w: the least q with q * w >= n. */
  lemma {:induction false} CeilDivBounds(n: nat, w: nat)
    requires w > 0
    ensures CeilDiv(n, w) * w >= n
    ensures CeilDiv(n, w) > 0 ==> (CeilDiv(n, w) - 1) * w < n
  {
    if n > 0 {
      var q' := CeilDiv(n - Min(n, w), w);
      CeilDivBounds(n - Min(n, w), w);
      MulStep(q', w);
    }
  }

  /** The patch count of each worker's shard. */
  function PerWorker(n: nat, w: nat): nat
    requires w > 0
  {
    CeilDiv(n, w)
  }

  /** id * pw, the global patch index where worker id starts, as a sum of id blocks of pw. */
  function Offset(id: nat, pw: nat): nat
  {
    if id == 0 then 0 else Offset(id - 1, pw) + pw
  }

  /** Where shard id starts in the patch list, clipped to its length. */
  function ShardLo(n: nat, w: nat, id: nat): (lo: nat)
    requires w > 0
    ensures lo <= n
  {
    Min(Offset(id, PerWorker(n, w)), n)
  }

  /** Where shard id stops in the patch list, clipped to its length. */
  function ShardHi(n: nat, w: nat, id: nat): (hi: nat)
    requires w > 0
    ensures ShardLo(n, w, id) <= hi <= n
  {
    Min(Offset(id, PerWorker(n, w)) + PerWorker(n, w), n)
  }

  /** patch_info_list[id * pw : id * pw + pw], the part worker id handles. */
  function Shard<T>(s: seq<T>, w: nat, id: nat): (r: seq<T>)
    requires w > 0
    ensures |r| == ShardHi(|s|, w, id) - ShardLo(|s|, w, id)
  {
    s[ShardLo(|s|, w, id)..ShardHi(|s|, w, id)]
  }

  lemma MulComm(a: nat, b: nat)
    ensures a * b == b * a
  {
  }

  lemma MulStep(k: nat, pw: nat)
    ensures (k + 1) * pw == k * pw + pw
  {
  }

  /** The block sum is the product id * pw. */
  lemma {:induction false} OffsetProduct(id: nat, pw: nat)
    ensures Offset(id, pw) == id * pw
  {
    if id > 0 {
      OffsetProduct(id - 1, pw);
      MulStep(id - 1, pw);
    }
  }

  /** A later worker starts no earlier. */
  lemma {:induction false} OffsetMonotone(i: nat, j: nat, pw: nat)
    requires i <= j
    ensures Offset(i, pw) <= Offset(j, pw)
  {
    if i < j {
      OffsetMonotone(i, j - 1, pw);
    }
  }

  /** The shard is the Python slice patch_info_list[id * pw : id * pw + pw]. */
  lemma ShardSlice<T>(s: seq<T>, w: nat, id: nat)
    requires w > 0
    ensures Shard(s, w, id) == PySlice(s, id * PerWorker(|s|, w), id * PerWorker(|s|, w) + PerWorker(|s|, w))
  {
    OffsetProduct(id, PerWorker(|s|, w));
  }

  /** Consecutive workers meet: shard id stops where shard id + 1 starts. */
  lemma ShardsAdjacent(n: nat, w: nat, id: nat)
    requires w > 0
    ensures ShardHi(n, w, id) == ShardLo(n, w, id + 1)
  {
  }

  /** Shards of different workers never overlap: an earlier shard stops before a later one starts. */
  lemma ShardsDisjoint(n: nat, w: nat, i: nat, j: nat)
    requires w > 0 && i < j
    ensures ShardHi(n, w, i) <= ShardLo(n, w, j)
  {
    OffsetMonotone(i + 1, j, PerWorker(n, w));
  }

  /** The shards of workers 0 .. k-1, concatenated in id order. */
  function Shards<T>(s: seq<T>, w: nat, k: nat): seq<T>
    requires w > 0
  {
    if k == 0 then [] else Shards(s, w, k - 1) + Shard(s, w, k - 1)
  }

  /** The first k shards concatenated are the prefix of the list up to shard k. */
  lemma {:induction false} ShardsPrefix<T>(s: seq<T>, w: nat, k: nat)
    requires w > 0
    ensures Shards(s, w, k) == s[..ShardLo(|s|, w, k)]
  {
    if k > 0 {
      var a, b := ShardLo(|s|, w, k - 1), ShardLo(|s|, w, k);
      ShardsPrefix(s, w, k - 1);
      ShardsAdjacent(|s|, w, k - 1);
      assert Shard(s, w, k - 1) == s[a..b];
      PrefixJoin(s, a, b);
    }
  }

  lemma PrefixJoin<T>(s: seq<T>, a: nat, b: nat)
    requires a <= b <= |s|
    ensures s[..a] + s[a..b] == s[..b]
  {
  }

  /** Past the last worker the shards have covered the whole list: w * ceil(n / w) >= n. */
  lemma LastShardEnds(n: nat, w: nat)
    requires w > 0
    ensures ShardLo(n, w, w) == n
  {
    CeilDivBounds(n, w);
    OffsetProduct(w, PerWorker(n, w));
    MulComm(PerWorker(n, w), w);
  }

  /** The shards of all w workers, concatenated in id order, give back the whole patch list. */
  lemma ShardsReassemble<T>(s: seq<T>, w: nat)
    requires w > 0
    ensures Shards(s, w, w) == s
  {
    ShardsPrefix(s, w, w);
    LastShardEnds(|s|, w);
    assert s[..|s|] == s;
  }

  /** A worker's shard is empty exactly when its start id * pw lies at or past the end. */
  lemma ShardEmptyIff<T>(s: seq<T>, w: nat, id: nat)
    requires w > 0
    ensures Shard(s, w, id) == [] <==> id * PerWorker(|s|, w) >= |s|
  {
    var pw := PerWorker(|s|, w);
    OffsetProduct(id, pw);
    if |s| > 0 {
      assert pw > 0;
    }
  }

  /**
   * With fewer patches than workers the last worker's shard is empty: each
   * worker takes one patch, and worker w - 1 starts at w - 1 >= len.
   */
  lemma LastShardEmpty<T>(s: seq<T>, w: nat)
    requires 0 < w && |s| < w
    ensures Shard(s, w, w - 1) == []
  {
    var pw := PerWorker(|s|, w);
    assert pw <= 1 by {
      if |s| > 0 {
        assert CeilDiv(|s| - Min(|s|, w), w) == CeilDiv(0, w);
      }
    }
    OffsetProduct(w - 1, pw);
    assert (w - 1) * pw >= |s| || pw == 0;
  }

  /** One patch and two workers: worker 1's shard patch_info_list[1:2] is empty. */
  lemma EmptyWorkerShard()
    ensures Shard([PatchInfo(0, 0, 0)], 2, 1) == []
  {
    LastShardEmpty([PatchInfo(0, 0, 0)], 2);
  }

  // ------------------------------------------------------ image rebasing

  /**
   * The implicit protocol of the patch-info list: every image index lies in
   * [0, m) and the indices never decrease along the list.
   */
  predicate Protocol(infos: seq<PatchInfo>, m: nat)
  {
    && (forall k :: 0 <= k < |infos| ==> 0 <= infos[k].img < m)
    && (forall i, j :: 0 <= i <= j < |infos| ==> infos[i].img <= infos[j].img)
  }

  /** A shard of a list that keeps the protocol keeps it too. */
  lemma ShardProtocol(infos: seq<PatchInfo>, m: nat, w: nat, id: nat)
    requires w > 0 && Protocol(infos, m)
    ensures Protocol(Shard(infos, w, id), m)
  {
    var lo := ShardLo(|infos|, w, id);
    var shard := Shard(infos, w, id);
    assert forall k :: 0 <= k < |shard| ==> shard[k] == infos[lo + k];
  }

  /**
   * Every patch's image index, rebased by start, finds in imgs the image it
   * names in the original list source.
   */
  ghost predicate Resolves<Img>(imgs: seq<Img>, infos: seq<PatchInfo>, start: int, source: seq<Img>)
  {
    forall k :: 0 <= k < |infos| ==>
      && 0 <= infos[k].img < |source|
      && PyIndex(imgs, infos[k].img - start) == Some(source[infos[k].img])
  }

  /** Without rebasing, a list that keeps the protocol resolves every patch in the original images. */
  lemma SingleResolves<Img>(imgs: seq<Img>, infos: seq<PatchInfo>)
    requires Protocol(infos, |imgs|)
    ensures Resolves(imgs, infos, 0, imgs)
  {
    forall k | 0 <= k < |infos|
      ensures PyIndex(imgs, infos[k].img - 0) == Some(imgs[infos[k].img])
    {
      assert 0 <= infos[k].img < |imgs|;
    }
  }

  /**
   * The image rebasing of a worker: for a non-empty shard that keeps the
   * protocol, img_list[first:last + 1] holds, at img - first, the image that
   * the original list holds at img, for every patch of the shard.
   */
  lemma RebaseResolves<Img>(imgs: seq<Img>, shard: seq<PatchInfo>)
    requires shard != [] && Protocol(shard, |imgs|)
    ensures Resolves(PySlice(imgs, shard[0].img, shard[|shard| - 1].img + 1), shard, shard[0].img, imgs)
  {
    var first, last := shard[0].img, shard[|shard| - 1].img;
    var local := PySlice(imgs, first, last + 1);
    assert local == imgs[first..last + 1];
    forall k | 0 <= k < |shard|
      ensures 0 <= shard[k].img < |imgs|
      ensures PyIndex(local, shard[k].img - first) == Some(imgs[shard[k].img])
    {
      assert first <= shard[k].img <= last;
    }
  }

  // ---------------------------------------------------- SerializeFileList

  /** What __iter__ ends in: ready to yield, or IndexError on an empty worker shard. */
  datatype IterOutcome = Ready | ShardEmpty

  /** What __next__ ends in: a patch and its info, StopIteration, or IndexError on the image lookup. */
  datatype Step<Img> = Yield(patch: Patch<Img>, info: PatchInfo) | StopIteration | IndexError

  /**
   * Reads a list of images as patches of the same shape. __iter__ narrows
   * the lists to this worker's share; __next__ advances a cursor over the
   * patch-info list.
   */
  class SerializeFileList<Img> {
    const patchSize: int
    var imgList: seq<Img>
    var patchInfoList: seq<PatchInfo>
    var workerStartImgIdx: int
    var currImgIdx: int
    var stopImgIdx: int
    var currPatchIdx: int
    var stopPatchIdx: int
    /** The image list as given to the constructor, which image indices refer to. */
    ghost const sourceImgs: seq<Img>

    /** The cursor stays within the patch-info list. */
    ghost predicate Valid()
      reads this
    {
      0 <= currPatchIdx <= stopPatchIdx <= |patchInfoList|
    }

    /**
     * Every patch's image index, rebased by workerStartImgIdx, finds in
     * imgList the image it names in the original list.
     */
    ghost predicate Rebased()
      reads this`imgList, this`patchInfoList, this`workerStartImgIdx
    {
      Resolves(imgList, patchInfoList, workerStartImgIdx, sourceImgs)
    }

    constructor (imgs: seq<Img>, infos: seq<PatchInfo>, size: int)
      ensures Valid()
      ensures imgList == imgs && sourceImgs == imgs && patchInfoList == infos && patchSize == size
      ensures workerStartImgIdx == 0 && currImgIdx == 0 && stopImgIdx == 0
      ensures currPatchIdx == 0 && stopPatchIdx == 0
    {
      patchSize := size;
      imgList := imgs;
      sourceImgs := imgs;
      patchInfoList := infos;
      workerStartImgIdx := 0;
      currImgIdx := 0;
      stopImgIdx := 0;
      currPatchIdx := 0;
      stopPatchIdx := 0;
    }

    /**
     * __iter__. Without a worker the stop indices become the full list
     * lengths; in a worker the lists narrow to the worker's share.
     */
    method Iter(worker: Option<WorkerInfo>) returns (r: IterOutcome)
      requires Valid()
      requires worker.Some? ==> worker.value.id < worker.value.numWorkers
      modifies this
      ensures Valid()
      ensures worker.None? ==>
                && r == Ready
                && stopImgIdx == |imgList| && stopPatchIdx == |patchInfoList|
                && imgList == old(imgList) && patchInfoList == old(patchInfoList)
                && workerStartImgIdx == old(workerStartImgIdx)
                && currImgIdx == old(currImgIdx) && currPatchIdx == old(currPatchIdx)
      ensures worker.Some? ==>
                && patchInfoList == Shard(old(patchInfoList), worker.value.numWorkers, worker.value.id)
                && currPatchIdx == 0 && stopPatchIdx == |patchInfoList|
                && (r == ShardEmpty <==> patchInfoList == [])
      ensures worker.Some? && r == ShardEmpty ==>
                && imgList == old(imgList) && workerStartImgIdx == old(workerStartImgIdx)
                && currImgIdx == old(currImgIdx) && stopImgIdx == old(stopImgIdx)
      ensures worker.Some? && r == Ready ==>
                && workerStartImgIdx == patchInfoList[0].img
                && imgList == PySlice(old(imgList), patchInfoList[0].img, patchInfoList[|patchInfoList| - 1].img + 1)
                && currImgIdx == 0 && stopImgIdx == |imgList|
      ensures old(imgList == sourceImgs && workerStartImgIdx == 0 && Protocol(patchInfoList, |imgList|)) && r == Ready
              ==> Rebased()
    {
      if worker.None? {
        ghost var fresh0 := imgList == sourceImgs && workerStartImgIdx == 0 && Protocol(patchInfoList, |imgList|);
        stopImgIdx := |imgList|;
        stopPatchIdx := |patchInfoList|;
        if fresh0 {
          SingleResolves(imgList, patchInfoList);
        }
        return Ready;
      }
      r := IterWorker(worker.value.id, worker.value.numWorkers);
    }

    /**
     * The worker branch of __iter__: the patch list becomes the worker's
     * shard and the cursor restarts; then the image list becomes the images
     * the shard refers to, rebased at the shard's first image. On an empty
     * shard reading its first entry fails after the patch list and cursor
     * were already replaced.
     */
    method IterWorker(id: nat, w: nat) returns (r: IterOutcome)
      requires Valid() && id < w
      modifies this
      ensures Valid()
      ensures patchInfoList == Shard(old(patchInfoList), w, id)
      ensures currPatchIdx == 0 && stopPatchIdx == |patchInfoList|
      ensures r == ShardEmpty <==> patchInfoList == []
      ensures r == ShardEmpty ==>
                && imgList == old(imgList) && workerStartImgIdx == old(workerStartImgIdx)
                && currImgIdx == old(currImgIdx) && stopImgIdx == old(stopImgIdx)
      ensures r == Ready ==>
                && workerStartImgIdx == patchInfoList[0].img
                && imgList == PySlice(old(imgList), patchInfoList[0].img, patchInfoList[|patchInfoList| - 1].img + 1)
                && currImgIdx == 0 && stopImgIdx == |imgList|
      ensures old(imgList == sourceImgs && workerStartImgIdx == 0 && Protocol(patchInfoList, |imgList|)) && r == Ready
              ==> Rebased()
    {
      ghost var fresh0 := imgList == sourceImgs && workerStartImgIdx == 0 && Protocol(patchInfoList, |imgList|);
      ghost var infos := patchInfoList;
      var imgs := imgList;
      var shard := NarrowPatches(id, w);
      if shard == [] {
        return ShardEmpty;
      }
      var globalCurrImgIdx := shard[0].img;
      var globalStopImgIdx := shard[|shard| - 1].img + 1;
      workerStartImgIdx := globalCurrImgIdx;
      imgList := PySlice(imgs, globalCurrImgIdx, globalStopImgIdx);
      currImgIdx := 0;
      stopImgIdx := |imgList|;
      r := Ready;
      if fresh0 {
        ShardProtocol(infos, |imgs|, w, id);
        RebaseResolves(imgs, shard);
      }
    }

    /**
     * The worker branch of __iter__ with the empty shard guarded: a worker
     * whose shard is empty gets an exhausted iterator over no images instead
     * of failing on the shard's first entry.
     */
    method IterWorkerGuarded(id: nat, w: nat) returns (r: IterOutcome)
      requires Valid() && id < w
      modifies this
      ensures r == Ready && Valid()
      ensures patchInfoList == Shard(old(patchInfoList), w, id)
      ensures currPatchIdx == 0 && stopPatchIdx == |patchInfoList|
      ensures patchInfoList == [] ==>
                && imgList == [] && currImgIdx == 0 && stopImgIdx == 0
                && workerStartImgIdx == old(workerStartImgIdx)
      ensures patchInfoList != [] ==>
                && workerStartImgIdx == patchInfoList[0].img
                && imgList == PySlice(old(imgList), patchInfoList[0].img, patchInfoList[|patchInfoList| - 1].img + 1)
                && currImgIdx == 0 && stopImgIdx == |imgList|
      ensures old(imgList == sourceImgs && workerStartImgIdx == 0 && Protocol(patchInfoList, |imgList|)) ==> Rebased()
    {
      ghost var fresh0 := imgList == sourceImgs && workerStartImgIdx == 0 && Protocol(patchInfoList, |imgList|);
      ghost var infos := patchInfoList;
      var imgs := imgList;
      var shard := NarrowPatches(id, w);
      r := Ready;
      if shard == [] {
        imgList := [];
        currImgIdx := 0;
        stopImgIdx := 0;
        return;
      }
      var globalCurrImgIdx := shard[0].img;
      var globalStopImgIdx := shard[|shard| - 1].img + 1;
      workerStartImgIdx := globalCurrImgIdx;
      imgList := PySlice(imgs, globalCurrImgIdx, globalStopImgIdx);
      currImgIdx := 0;
      stopImgIdx := |imgList|;
      if fresh0 {
        ShardProtocol(infos, |imgs|, w, id);
        RebaseResolves(imgs, shard);
      }
    }

    /**
     * The patch half of a worker's __iter__: pw = ceil(len / num_workers)
     * patches per worker, the patch list cut to [id * pw, id * pw + pw),
     * and the patch cursor restarted over it.
     */
    method NarrowPatches(id: nat, w: nat) returns (shard: seq<PatchInfo>)
      requires id < w
      modifies this`patchInfoList, this`currPatchIdx, this`stopPatchIdx
      ensures shard == patchInfoList == Shard(old(patchInfoList), w, id)
      ensures currPatchIdx == 0 && stopPatchIdx == |shard|
    {
      var infos := patchInfoList;
      var pw := PerWorker(|infos|, w);
      var globalCurrPatchIdx := id * pw;
      var globalStopPatchIdx := globalCurrPatchIdx + pw;
      shard := PySlice(infos, globalCurrPatchIdx, globalStopPatchIdx);
      ShardSlice(infos, w, id);
      patchInfoList := shard;
      currPatchIdx := 0;
      stopPatchIdx := |shard|;
    }

    /**
     * __next__: StopIteration once the cursor reaches the stop index;
     * otherwise look up the patch's image at its rebased index (IndexError
     * when that falls outside the image list) and cut the patch, moving the
     * cursor on by one.
     */
    method Next() returns (r: Step<Img>)
      requires Valid()
      modifies this`currPatchIdx
      ensures Valid()
      ensures old(currPatchIdx) >= stopPatchIdx <==> r == StopIteration
      ensures r.StopIteration? || r.IndexError? ==> currPatchIdx == old(currPatchIdx)
      ensures r.IndexError? <==>
                old(currPatchIdx) < stopPatchIdx
                && PyIndex(imgList, patchInfoList[old(currPatchIdx)].img - workerStartImgIdx).None?
      ensures r.Yield? ==>
                && currPatchIdx == old(currPatchIdx) + 1
                && r.info == patchInfoList[old(currPatchIdx)]
                && Some(r.patch.image) == PyIndex(imgList, r.info.img - workerStartImgIdx)
                && r.patch.rowLo == r.info.row && r.patch.rowHi == r.info.row + patchSize
                && r.patch.colLo == r.info.col && r.patch.colHi == r.info.col + patchSize
      ensures Rebased() <==> old(Rebased())
      ensures Rebased() ==> !r.IndexError? && (r.Yield? ==> r.patch.image == sourceImgs[r.info.img])
    {
      if currPatchIdx >= stopPatchIdx {
        return StopIteration;
      }
      var patchInfo := patchInfoList[currPatchIdx];
      var imgPtr := PyIndex(imgList, patchInfo.img - workerStartImgIdx);
      if imgPtr.None? {
        return IndexError;
      }
      var patch := Patch(imgPtr.value, patchInfo.row, patchInfo.row + patchSize,
                         patchInfo.col, patchInfo.col + patchSize);
      currPatchIdx := currPatchIdx + 1;
      r := Yield(patch, patchInfo);
    }
  }

  // ------------------------------------------------------- SerializeArray

  /** Reads patches out of one image, by position in the patch-info list. */
  class SerializeArray<Img> {
    const image: Img
    const patchInfoList: seq<PatchInfo>
    const patchSize: (int, int)

    constructor (img: Img, infos: seq<PatchInfo>, size: (int, int))
      ensures image == img && patchInfoList == infos && patchSize == size
    {
      image := img;
      patchInfoList := infos;
      patchSize := size;
    }

    /** __getitem__: the patch at the entry's corner and the entry itself; None stands for IndexError. */
    function GetItem(idx: int): (r: Option<(Patch<Img>, PatchInfo)>)
      ensures r.Some? <==> -|patchInfoList| <= idx < |patchInfoList|
      ensures r.Some? ==>
                && Some(r.value.1) == PyIndex(patchInfoList, idx)
                && r.value.0 == Patch(image, r.value.1.row, r.value.1.row + patchSize.0,
                                      r.value.1.col, r.value.1.col + patchSize.1)
    {
      match PyIndex(patchInfoList, idx)
      case None => None
      case Some(info) =>
        Some((Patch(image, info.row, info.row + patchSize.0, info.col, info.col + patchSize.1), info))
    }

    /** __len__: every index below it yields its own entry unchanged. */
    function Len(): (n: nat)
      ensures n == |patchInfoList|
      ensures forall i :: 0 <= i < n ==> GetItem(i).Some? && GetItem(i).value.1 == patchInfoList[i]
    {
      |patchInfoList|
    }
  }
}
