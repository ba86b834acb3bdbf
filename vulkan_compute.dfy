/** The integer bookkeeping of the Vulkan GEMM benchmark (vulkan_compute.cpp): the
    memory-type and queue-family searches, the lazily created shared context, the
    workgroup counts, and the tiling of the dispatch grid into batches of at most 32 x 32
    workgroups with one progress update per batch. What the driver answers is a
    parameter; shaders, buffers and the numbers they hold are not modelled. */
module VulkanCompute {
  import opened Common

  /** `VK_QUEUE_COMPUTE_BIT` */
  const COMPUTE_BIT: bv32 := 0x2
  /** `VK_MAX_MEMORY_TYPES`, the bound on `memoryTypeCount` */
  const MAX_MEMORY_TYPES: nat := 32
  /** `TILE_DIM`, the shader's workgroup edge */
  const TILE_DIM: nat := 16
  /** `CHUNK_WG_X` and `CHUNK_WG_Y`, the batch edge in workgroups */
  const CHUNK: nat := 32

  // ---------------------------------------------------------------------------
  // findMemoryType (vulkan_compute.cpp:50-56)

  /** Memory type `i` is allowed by `mask` and has every property in `props`. */
  predicate Suitable(mask: bv32, typeFlags: seq<bv32>, props: bv32, i: nat)
    requires i < |typeFlags| <= MAX_MEMORY_TYPES
  {
    mask & ((1 as bv32) << i) != 0 && typeFlags[i] & props == props
  }

  /** The first suitable memory type, or `UINT32_MAX` when there is none;
      `typeFlags[i]` is `memoryTypes[i].propertyFlags`. */
  method FindMemoryType(mask: bv32, typeFlags: seq<bv32>, props: bv32) returns (r: int)
    requires |typeFlags| <= MAX_MEMORY_TYPES
    ensures r == UINT32_MAX <==> forall i :: 0 <= i < |typeFlags| ==> !Suitable(mask, typeFlags, props, i)
    ensures r != UINT32_MAX ==>
      0 <= r < |typeFlags| && Suitable(mask, typeFlags, props, r) &&
      forall i :: 0 <= i < r ==> !Suitable(mask, typeFlags, props, i)
  {
    for i := 0 to |typeFlags|
      invariant forall j :: 0 <= j < i ==> !Suitable(mask, typeFlags, props, j)
    {
      if mask & ((1 as bv32) << i) != 0 && typeFlags[i] & props == props {
        assert Suitable(mask, typeFlags, props, i);
        return i;
      }
    }
    return UINT32_MAX;
  }

  /** `createBuffer`: it succeeds only if the buffer is created, a suitable memory type
      exists, and the allocation and the binding succeed. */
  method CreateBuffer(createOk: bool, mask: bv32, typeFlags: seq<bv32>, props: bv32,
                      allocOk: bool, bindOk: bool)
    returns (ok: bool)
    requires |typeFlags| <= MAX_MEMORY_TYPES
    ensures ok <==> createOk && allocOk && bindOk &&
                    exists i :: 0 <= i < |typeFlags| && Suitable(mask, typeFlags, props, i)
  {
    if !createOk {
      return false;
    }
    var mt := FindMemoryType(mask, typeFlags, props);
    if mt == UINT32_MAX {
      return false;
    }
    return allocOk && bindOk;
  }

  // ---------------------------------------------------------------------------
  // initShared and getSharedContext (vulkan_compute.cpp:72-117)

  predicate HasCompute(flags: bv32)
  {
    flags & COMPUTE_BIT != 0
  }

  /** `i` is the first queue family with the compute bit. */
  predicate FirstCompute(queueFlags: seq<bv32>, i: nat)
  {
    i < |queueFlags| && HasCompute(queueFlags[i]) &&
    forall j :: 0 <= j < i ==> !HasCompute(queueFlags[j])
  }

  /** The queue-family scan: the first family with the compute bit, or `UINT32_MAX`. */
  method ComputeQueueFamily(queueFlags: seq<bv32>) returns (r: int)
    requires |queueFlags| <= UINT32_MAX
    ensures r == UINT32_MAX <==> forall j :: 0 <= j < |queueFlags| ==> !HasCompute(queueFlags[j])
    ensures r != UINT32_MAX ==> r >= 0 && FirstCompute(queueFlags, r)
  {
    r := UINT32_MAX;
    for i := 0 to |queueFlags|
      invariant forall j :: 0 <= j < i ==> !HasCompute(queueFlags[j])
    {
      if queueFlags[i] & COMPUTE_BIT != 0 {
        r := i;
        return;
      }
    }
  }

  /** The fields of `SharedVulkanContext` the model follows: the index of the chosen
      physical device and of its compute queue family. */
  datatype SharedContext = SharedContext(physicalDevice: nat, computeQueueFamilyIndex: nat)

  /** What the driver answers during `initShared`: whether the instance and the device
      are created, how many physical devices there are, and the queue flags of the
      families of the first device. */
  datatype Driver = Driver(instanceOk: bool, deviceCount: nat, queueFlags: seq<bv32>, deviceOk: bool)

  predicate InitSucceeds(d: Driver)
  {
    d.instanceOk && d.deviceCount > 0 &&
    (exists j :: 0 <= j < |d.queueFlags| && HasCompute(d.queueFlags[j])) && d.deviceOk
  }

  /** `initShared`: the first physical device, with its first compute queue family. */
  method InitShared(d: Driver) returns (ctx: Option<SharedContext>)
    requires |d.queueFlags| <= UINT32_MAX
    ensures ctx.Some? <==> InitSucceeds(d)
    ensures ctx.Some? ==> ctx.value.physicalDevice == 0 &&
                          FirstCompute(d.queueFlags, ctx.value.computeQueueFamilyIndex)
  {
    if !d.instanceOk || d.deviceCount == 0 {
      return None;
    }
    var family := ComputeQueueFamily(d.queueFlags);
    if family == UINT32_MAX || !d.deviceOk {
      return None;
    }
    return Some(SharedContext(0, family));
  }

  /** The process-wide `g_sharedContext`. */
  class VulkanGlobals {
    var shared: Option<SharedContext>

    constructor()
      ensures shared == None
    {
      shared := None;
    }

    /** `getSharedContext`: an existing context is returned unchanged; otherwise one is
        initialised, and kept only if initialisation succeeds. */
    method GetSharedContext(d: Driver) returns (r: Option<SharedContext>)
      requires |d.queueFlags| <= UINT32_MAX
      modifies this
      ensures old(shared).Some? ==> r == old(shared) && shared == old(shared)
      ensures old(shared).None? ==>
        shared == r && (r.Some? <==> InitSucceeds(d)) &&
        (r.Some? ==> r.value.physicalDevice == 0 && FirstCompute(d.queueFlags, r.value.computeQueueFamilyIndex))
    {
      if shared.None? {
        var ctx := InitShared(d);
        if ctx.None? {
          return None;
        }
        shared := ctx;
      }
      return shared;
    }

    /** `nativeCleanup` and `nativeBenchCleanup`: the context is destroyed and the
        global emptied. */
    method Cleanup()
      modifies this
      ensures shared == None
    {
      shared := None;
    }

    /** `nativeRunVulkanGEMMBenchmark`: -1 without a shared context or when the
        pipeline or the buffers cannot be made; otherwise what `runGEMMCompute`
        returns for the 8192 x 8192 x 5120 problem. */
    method RunGemmBenchmark(d: Driver, setupOk: bool, cmdOk: bool, fenceOk: bool,
                            batchOk: nat -> bool, callbacks: bool, durationMs: int)
      returns (code: int, dispatched: seq<Batch>, progress: seq<nat>)
      requires |d.queueFlags| <= UINT32_MAX
      modifies this
      ensures old(shared).None? && !InitSucceeds(d) ==> code == -1 && shared.None? && progress == []
      ensures old(shared).Some? ==> shared == old(shared)
      ensures old(shared).None? && InitSucceeds(d) ==>
        shared.Some? && shared.value.physicalDevice == 0 &&
        FirstCompute(d.queueFlags, shared.value.computeQueueFamilyIndex)
      ensures (old(shared).Some? || InitSucceeds(d)) && setupOk && cmdOk && fenceOk ==>
        var total := |Tiling(GEMM_COUNT, GEMM_COUNT)|;
        var done := Completed(batchOk, total);
        dispatched == Tiling(GEMM_COUNT, GEMM_COUNT)[..done] &&
        progress == (if callbacks then CountTo(done) else []) &&
        (done == total ==> code == durationMs) && (done < total ==> code == -1)
      ensures !(setupOk && cmdOk && fenceOk) ==> code == -1 && dispatched == [] && progress == []
    {
      var ctx := GetSharedContext(d);
      if ctx.None? {
        return -1, [], [];
      }
      var countX := WorkgroupCount(8192);
      var countY := WorkgroupCount(8192);
      if !setupOk {
        return -1, [], [];
      }
      var total, fenceFreed, cmdFreed;
      code, dispatched, progress, total, fenceFreed, cmdFreed :=
        RunGemmCompute(countX, countY, cmdOk, fenceOk, batchOk, callbacks, durationMs);
    }
  }

  // ---------------------------------------------------------------------------
  // Workgroup counts (vulkan_compute.cpp:299-301, 394-397)

  /** `(dim + TILE_DIM - 1) / TILE_DIM`: the fewest 16-wide workgroups covering `dim`. */
  function WorkgroupCount(dim: nat): (c: nat)
    ensures c * TILE_DIM >= dim
    ensures c > 0 ==> (c - 1) * TILE_DIM < dim
  {
    (dim + TILE_DIM - 1) / TILE_DIM
  }

  /** The benchmark's grid: 512 workgroups along each axis. */
  const GEMM_COUNT: nat := 512

  lemma GemmGrid()
    ensures WorkgroupCount(8192) == GEMM_COUNT
  {
  }

  // ---------------------------------------------------------------------------
  // runGEMMCompute's batches (vulkan_compute.cpp:198-270)

  /** One `vkCmdDispatch`: the push constants' `baseX`/`baseY` and the dispatch size. */
  datatype Batch = Batch(baseX: nat, baseY: nat, dispatchX: nat, dispatchY: nat)

  /** The batch sits on the 32-grid inside the `countX` x `countY` grid, and its size is
      `min(32, count - base)` along each axis. */
  predicate Aligned(countX: nat, countY: nat, b: Batch)
  {
    b.baseX % CHUNK == 0 && b.baseX < countX && b.dispatchX == Min(CHUNK, countX - b.baseX) &&
    b.baseY % CHUNK == 0 && b.baseY < countY && b.dispatchY == Min(CHUNK, countY - b.baseY)
  }

  /** Workgroup `(x, y)` is dispatched by batch `b`. */
  predicate Covers(b: Batch, x: nat, y: nat)
  {
    b.baseX <= x < b.baseX + b.dispatchX && b.baseY <= y < b.baseY + b.dispatchY
  }

  /** `a` comes before `b` in the loops' row-major order. */
  predicate Before(a: Batch, b: Batch)
  {
    a.baseY < b.baseY || (a.baseY == b.baseY && a.baseX < b.baseX)
  }

  /** The batches of the inner loop for row `y0`, from column `x0` on. */
  function Row(countX: nat, countY: nat, y0: nat, x0: nat): (r: seq<Batch>)
    requires y0 < countY
    decreases countX - x0
  {
    if x0 >= countX then []
    else [Batch(x0, y0, Min(CHUNK, countX - x0), Min(CHUNK, countY - y0))] + Row(countX, countY, y0, x0 + CHUNK)
  }

  /** The batches of the outer loop from row `y0` on. */
  function Rows(countX: nat, countY: nat, y0: nat): (r: seq<Batch>)
    decreases countY - y0
  {
    if y0 >= countY then []
    else Row(countX, countY, y0, 0) + Rows(countX, countY, y0 + CHUNK)
  }

  /** A row from column `x0` has `ceil((countX - x0) / 32)` batches. */
  lemma {:induction false} RowLength(countX: nat, countY: nat, y0: nat, x0: nat)
    requires y0 < countY
    decreases countX - x0
    ensures |Row(countX, countY, y0, x0)| == if x0 < countX then (countX - x0 + CHUNK - 1) / CHUNK else 0
  {
    if x0 < countX {
      RowLength(countX, countY, y0, x0 + CHUNK);
    }
  }

  /** Batch `k` of a row starts `32 * k` workgroups after the row's first column, and
      every batch of the row lies on the 32-grid inside the grid. */
  lemma {:induction false} RowShape(countX: nat, countY: nat, y0: nat, x0: nat)
    requires x0 % CHUNK == 0 && y0 % CHUNK == 0 && y0 < countY
    decreases countX - x0
    ensures forall k :: 0 <= k < |Row(countX, countY, y0, x0)| ==>
      var b := Row(countX, countY, y0, x0)[k];
      b.baseX == x0 + CHUNK * k && b.baseY == y0 && Aligned(countX, countY, b)
  {
    if x0 < countX {
      RowShape(countX, countY, y0, x0 + CHUNK);
    }
  }

  /** Every batch from row `y0` on lies on the 32-grid inside the grid. */
  lemma {:induction false} RowsAligned(countX: nat, countY: nat, y0: nat)
    requires y0 % CHUNK == 0
    decreases countY - y0
    ensures forall k :: 0 <= k < |Rows(countX, countY, y0)| ==>
      Aligned(countX, countY, Rows(countX, countY, y0)[k]) && Rows(countX, countY, y0)[k].baseY >= y0
  {
    if y0 < countY {
      var row, rest := Row(countX, countY, y0, 0), Rows(countX, countY, y0 + CHUNK);
      RowShape(countX, countY, y0, 0);
      RowsAligned(countX, countY, y0 + CHUNK);
      assert forall k :: |row| <= k < |row + rest| ==> (row + rest)[k] == rest[k - |row|];
    }
  }

  /** The batches come in the loops' row-major order, each strictly after the one before. */
  lemma {:induction false} RowsOrdered(countX: nat, countY: nat, y0: nat)
    requires y0 % CHUNK == 0
    decreases countY - y0
    ensures forall k, l :: 0 <= k < l < |Rows(countX, countY, y0)| ==>
      Before(Rows(countX, countY, y0)[k], Rows(countX, countY, y0)[l])
  {
    if y0 < countY {
      var row, rest := Row(countX, countY, y0, 0), Rows(countX, countY, y0 + CHUNK);
      RowShape(countX, countY, y0, 0);
      RowsAligned(countX, countY, y0 + CHUNK);
      RowsOrdered(countX, countY, y0 + CHUNK);
      var r := row + rest;
      assert r == Rows(countX, countY, y0);
      forall k, l | 0 <= k < l < |r|
        ensures Before(r[k], r[l])
      {
        if l < |row| {
        } else if k < |row| {
          assert r[l] == rest[l - |row|];
        } else {
          assert r[k] == rest[k - |row|] && r[l] == rest[l - |row|];
        }
      }
    }
  }

  /** Every batch the nested loops dispatch, in order. */
  function Tiling(countX: nat, countY: nat): seq<Batch>
  {
    Rows(countX, countY, 0)
  }

  /** Every dispatch has between 1 and 32 workgroups along each axis. */
  lemma DispatchSizes(countX: nat, countY: nat, k: nat)
    requires k < |Tiling(countX, countY)|
    ensures 1 <= Tiling(countX, countY)[k].dispatchX <= CHUNK
    ensures 1 <= Tiling(countX, countY)[k].dispatchY <= CHUNK
  {
    RowsAligned(countX, countY, 0);
  }

  /** The batches cover the grid: every workgroup of it is in some batch, and nothing
      outside it is. */
  lemma TilingCovers(countX: nat, countY: nat, x: nat, y: nat)
    ensures (exists k :: 0 <= k < |Tiling(countX, countY)| && Covers(Tiling(countX, countY)[k], x, y))
            <==> x < countX && y < countY
  {
    var t := Tiling(countX, countY);
    if x < countX && y < countY {
      RowsCover(countX, countY, 0, x, y);
    }
    if exists k :: 0 <= k < |t| && Covers(t[k], x, y) {
      var k :| 0 <= k < |t| && Covers(t[k], x, y);
      RowsAligned(countX, countY, 0);
      assert Aligned(countX, countY, t[k]);
    }
  }

  lemma {:induction false} RowsCover(countX: nat, countY: nat, y0: nat, x: nat, y: nat)
    requires y0 % CHUNK == 0 && y0 <= y < countY && x < countX
    decreases countY - y0
    ensures exists k :: 0 <= k < |Rows(countX, countY, y0)| && Covers(Rows(countX, countY, y0)[k], x, y)
  {
    var row := Row(countX, countY, y0, 0);
    var rest := Rows(countX, countY, y0 + CHUNK);
    assert Rows(countX, countY, y0) == row + rest;
    if y < y0 + CHUNK {
      RowShape(countX, countY, y0, 0);
      RowLength(countX, countY, y0, 0);
      var k := x / CHUNK;
      assert Covers(row[k], x, y);
      assert (row + rest)[k] == row[k];
    } else {
      RowsCover(countX, countY, y0 + CHUNK, x, y);
      var k :| 0 <= k < |rest| && Covers(rest[k], x, y);
      assert (row + rest)[|row| + k] == rest[k];
    }
  }

  /** No workgroup is in two batches. */
  lemma TilingDisjoint(countX: nat, countY: nat, x: nat, y: nat, k: nat, l: nat)
    requires k < |Tiling(countX, countY)| && l < |Tiling(countX, countY)|
    requires Covers(Tiling(countX, countY)[k], x, y) && Covers(Tiling(countX, countY)[l], x, y)
    ensures k == l
  {
    var t := Tiling(countX, countY);
    RowsAligned(countX, countY, 0);
    RowsOrdered(countX, countY, 0);
    AlignedBase(t[k].baseX, t[l].baseX, x);
    AlignedBase(t[k].baseY, t[l].baseY, y);
  }

  /** Two bases on the 32-grid whose batches both reach `v` are equal. */
  lemma AlignedBase(a: nat, b: nat, v: nat)
    requires a % CHUNK == 0 && b % CHUNK == 0
    requires a <= v < a + CHUNK && b <= v < b + CHUNK
    ensures a == b
  {
  }

  /** The nested loops yield `ceil(countX / 32) * ceil(countY / 32)` batches. */
  lemma {:induction false} RowsCount(countX: nat, countY: nat, y0: nat)
    requires y0 % CHUNK == 0
    decreases countY - y0
    ensures |Rows(countX, countY, y0)| ==
            ((countX + CHUNK - 1) / CHUNK) * (if y0 < countY then (countY - y0 + CHUNK - 1) / CHUNK else 0)
  {
    if y0 < countY {
      var nx := (countX + CHUNK - 1) / CHUNK;
      var m := (countY - y0 + CHUNK - 1) / CHUNK;
      RowsCount(countX, countY, y0 + CHUNK);
      RowLength(countX, countY, y0, 0);
      assert (if y0 + CHUNK < countY then (countY - y0 - CHUNK + CHUNK - 1) / CHUNK else 0) == m - 1;
      assert nx * m == nx + nx * (m - 1);
    }
  }

  /** The benchmark dispatches 16 x 16 = 256 batches. */
  lemma GemmBatches()
    ensures |Tiling(GEMM_COUNT, GEMM_COUNT)| == 256
  {
    RowsCount(GEMM_COUNT, GEMM_COUNT, 0);
  }

  /** The first nested loop of `runGEMMCompute`, counting `totalBatches` with the same
      loop shape as the dispatch loop. */
  method CountBatches(countX: nat, countY: nat) returns (total: nat)
    ensures total == |Tiling(countX, countY)|
  {
    total := 0;
    var y0 := 0;
    while y0 < countY
      invariant total + |Rows(countX, countY, y0)| == |Tiling(countX, countY)|
      decreases countY - y0
    {
      var x0 := 0;
      while x0 < countX
          invariant total + |Row(countX, countY, y0, x0)| + |Rows(countX, countY, y0 + CHUNK)| == |Tiling(countX, countY)|
        decreases countX - x0
      {
        total := total + 1;
        x0 := x0 + CHUNK;
      }
      y0 := y0 + CHUNK;
    }
  }

  /** `runGEMMCompute`. `cmdOk` and `fenceOk` say whether the command buffer and the
      fence are created, `batchOk(k)` whether batch `k`'s begin, end, submit and wait all
      succeed, `callbacks` whether the activity and the progress method are non-null.
      `dispatched` lists the batches whose wait completed, `progress` the numerators
      `batchIndex` sent over `totalBatches`, and the two flags whether the fence and the
      command buffer were released. */
  method RunGemmCompute(countX: nat, countY: nat, cmdOk: bool, fenceOk: bool,
                        batchOk: nat -> bool, callbacks: bool, durationMs: int)
    returns (code: int, dispatched: seq<Batch>, progress: seq<nat>, total: nat,
             fenceFreed: bool, cmdFreed: bool)
    ensures !cmdOk ==> code == -1 && dispatched == [] && progress == []
    ensures cmdOk ==> cmdFreed
    ensures cmdOk && !fenceOk ==> code == -1 && dispatched == [] && progress == []
    ensures cmdOk && fenceOk ==>
      fenceFreed && total == |Tiling(countX, countY)| &&
      var done := Completed(batchOk, total);
      dispatched == Tiling(countX, countY)[..done] &&
      progress == (if callbacks then CountTo(done) else []) &&
      (done == total ==> code == durationMs) && (done < total ==> code == -1)
  {
    if !cmdOk {
      return -1, [], [], 0, false, false;
    }
    if !fenceOk {
      return -1, [], [], 0, false, true;
    }
    total := CountBatches(countX, countY);
    var ok;
    ok, dispatched, progress := DispatchBatches(countX, countY, batchOk, callbacks);
    code := if ok then durationMs else -1;
    fenceFreed, cmdFreed := true, true;
  }

  /** The dispatch loop of `runGEMMCompute`: it stops at the first failing batch. */
  method DispatchBatches(countX: nat, countY: nat, batchOk: nat -> bool, callbacks: bool)
    returns (ok: bool, dispatched: seq<Batch>, progress: seq<nat>)
    ensures var done := Completed(batchOk, |Tiling(countX, countY)|);
      dispatched == Tiling(countX, countY)[..done] &&
      progress == (if callbacks then CountTo(done) else []) &&
      (ok <==> done == |Tiling(countX, countY)|)
  {
    ghost var t := Tiling(countX, countY);
    dispatched, progress := [], [];
    var y0 := 0;
    while y0 < countY
      invariant dispatched + Rows(countX, countY, y0) == t
      invariant Completed(batchOk, |dispatched|) == |dispatched|
      invariant progress == (if callbacks then CountTo(|dispatched|) else [])
      decreases countY - y0
    {
      ok, dispatched, progress := DispatchRow(countX, countY, y0, batchOk, callbacks, dispatched, progress, t);
      if !ok {
        return;
      }
      y0 := y0 + CHUNK;
    }
    assert t[..|dispatched|] == dispatched;
    return true, dispatched, progress;
  }

  /** One pass of the inner loop of the dispatch loop, for row `y0`. */
  method DispatchRow(countX: nat, countY: nat, y0: nat, batchOk: nat -> bool, callbacks: bool,
                     dispatched: seq<Batch>, progress: seq<nat>, ghost t: seq<Batch>)
    returns (ok: bool, d: seq<Batch>, p: seq<nat>)
    requires y0 < countY
    requires dispatched + Rows(countX, countY, y0) == t
    requires Completed(batchOk, |dispatched|) == |dispatched|
    requires progress == (if callbacks then CountTo(|dispatched|) else [])
    ensures p == (if callbacks then CountTo(|d|) else [])
    ensures ok ==> d + Rows(countX, countY, y0 + CHUNK) == t && Completed(batchOk, |d|) == |d|
    ensures !ok ==> |d| < |t| && d == t[..|d|] && Completed(batchOk, |t|) == |d|
  {
    RowsUnfold(countX, countY, y0, dispatched, t);
    d, p := dispatched, progress;
    var x0 := 0;
    while x0 < countX
      invariant d + Row(countX, countY, y0, x0) + Rows(countX, countY, y0 + CHUNK) == t
      invariant Completed(batchOk, |d|) == |d|
      invariant p == (if callbacks then CountTo(|d|) else [])
      decreases countX - x0
    {
      ok, d, p := DispatchBatch(countX, countY, y0, x0, batchOk, callbacks, d, p, t);
      if !ok {
        return;
      }
      x0 := x0 + CHUNK;
    }
    RowDone(countX, countY, y0, x0, d, t);
    ok := true;
  }

  lemma RowsUnfold(countX: nat, countY: nat, y0: nat, dispatched: seq<Batch>, t: seq<Batch>)
    requires y0 < countY && dispatched + Rows(countX, countY, y0) == t
    ensures dispatched + Row(countX, countY, y0, 0) + Rows(countX, countY, y0 + CHUNK) == t
  {
    var row, rest := Row(countX, countY, y0, 0), Rows(countX, countY, y0 + CHUNK);
    assert Rows(countX, countY, y0) == row + rest;
    ConcatAssoc(dispatched, row, rest);
  }

  lemma ConcatAssoc(a: seq<Batch>, b: seq<Batch>, c: seq<Batch>)
    ensures a + (b + c) == a + b + c
  {
  }

  lemma RowDone(countX: nat, countY: nat, y0: nat, x0: nat, d: seq<Batch>, t: seq<Batch>)
    requires y0 < countY && x0 >= countX
    requires d + Row(countX, countY, y0, x0) + Rows(countX, countY, y0 + CHUNK) == t
    ensures d + Rows(countX, countY, y0 + CHUNK) == t
  {
    assert Row(countX, countY, y0, x0) == [];
  }

  /** One batch: record the dispatch of `min(32, countX - x0) x min(32, countY - y0)`
      workgroups with base `(x0, y0)`, submit it and wait for it, then increment
      `batchIndex` and report `batchIndex / totalBatches`. */
  method DispatchBatch(countX: nat, countY: nat, y0: nat, x0: nat, batchOk: nat -> bool, callbacks: bool,
                       dispatched: seq<Batch>, progress: seq<nat>, ghost t: seq<Batch>)
    returns (ok: bool, d: seq<Batch>, p: seq<nat>)
    requires y0 < countY && x0 < countX
    requires dispatched + Row(countX, countY, y0, x0) + Rows(countX, countY, y0 + CHUNK) == t
    requires Completed(batchOk, |dispatched|) == |dispatched|
    requires progress == (if callbacks then CountTo(|dispatched|) else [])
    ensures p == (if callbacks then CountTo(|d|) else [])
    ensures ok ==> d + Row(countX, countY, y0, x0 + CHUNK) + Rows(countX, countY, y0 + CHUNK) == t &&
                   Completed(batchOk, |d|) == |d|
    ensures !ok ==> |d| < |t| && d == t[..|d|] && Completed(batchOk, |t|) == |d|
  {
    var batchIndex: nat := |dispatched|;
    var b := Batch(x0, y0, Min(CHUNK, countX - x0), Min(CHUNK, countY - y0));
    var rest := Row(countX, countY, y0, x0 + CHUNK);
    assert Row(countX, countY, y0, x0) == [b] + rest;
    if !batchOk(batchIndex) {
      assert t[..batchIndex] == dispatched;
      return false, dispatched, progress;
    }
    CompletedStep(batchOk, batchIndex);
    ShiftHead(dispatched, b, rest, Rows(countX, countY, y0 + CHUNK));
    d := dispatched + [b];
    batchIndex := batchIndex + 1;
    p := progress;
    if callbacks {
      p := p + [batchIndex];
    }
    return true, d, p;
  }
}
