/** The random-access storage benchmarks (rom_random.cpp): 4 KiB blocks written to, or
    read from, block-aligned offsets of a 500 MiB file drawn at random. Files are byte
    sequences; the offset drawn in iteration `i` is `pick(i)`, the random bytes come
    from `rand`, and whether an open or an I/O call succeeds is a parameter. */
module RomRandom {
  import opened Common

  const FILE_SIZE: nat := 500 * 1024 * 1024
  const BLOCK_SIZE: nat := 4 * 1024
  /** `file_size / block_size` */
  const ITERATIONS: nat := 128000
  /** The buffer `create_random_test_file` fills and writes, 64 KiB. */
  const WRITE_BUFFER: nat := 64 * 1024
  /** `iterations / total_progress_updates` */
  const PROGRESS_STEP: nat := 1280

  lemma Constants()
    ensures ITERATIONS == FILE_SIZE / BLOCK_SIZE && BLOCK_SIZE * ITERATIONS == FILE_SIZE
    ensures PROGRESS_STEP == ITERATIONS / 100
  {
  }

  /** A value of `dist_offset(gen)`, uniform over `[0, iterations - 1]`. */
  type Slot = k: nat | k < ITERATIONS

  /** The byte offset `slot * block_size`; the block there lies inside the file. */
  function Offset(slot: Slot): (p: nat)
    ensures p + BLOCK_SIZE <= FILE_SIZE && p % BLOCK_SIZE == 0
  {
    slot * BLOCK_SIZE
  }

  /** Blocks at different slots do not overlap. */
  lemma SlotsDisjoint(s: Slot, t: Slot, q: nat)
    requires s != t && q < BLOCK_SIZE
    ensures !(Offset(t) <= Offset(s) + q < Offset(t) + BLOCK_SIZE)
  {
  }

  // ---------------------------------------------------------------------------
  // create_random_test_file (rom_random.cpp:18-39)

  /** The file of `n` random bytes, byte `p` being `fill(p)`. */
  function RandomFile(fill: nat -> byte, n: nat): (s: seq<byte>)
    ensures |s| == n && forall p :: 0 <= p < n ==> s[p] == fill(p)
  {
    seq(n, p requires 0 <= p < n => fill(p))
  }

  /** Writes `size` random bytes in chunks of at most 64 KiB; `fill(p)` is the byte drawn
      for position `p`, `writeOk(i)` whether the chunk starting at byte `i` is written.
      The file holds the chunks written before the first failing one. */
  method CreateRandomTestFile(size: nat, openOk: bool, writeOk: nat -> bool, fill: nat -> byte)
    returns (ok: bool, file: seq<byte>)
    ensures ok <==> openOk && forall i :: 0 <= i < size && i % WRITE_BUFFER == 0 ==> writeOk(i)
    ensures ok ==> file == RandomFile(fill, size)
    ensures file == RandomFile(fill, |file|) && |file| <= size
  {
    if !openOk {
      return false, [];
    }
    var buffer := new byte[WRITE_BUFFER];
    file := [];
    var i := 0;
    while i < size
      invariant i % WRITE_BUFFER == 0
      invariant |file| == if i < size then i else size
      invariant file == RandomFile(fill, |file|)
      invariant forall p :: 0 <= p < i && p < size && p % WRITE_BUFFER == 0 ==> writeOk(p)
    {
      var chunk := if WRITE_BUFFER < size - i then WRITE_BUFFER else size - i;
      FillDrawn(buffer, i, chunk, fill);
      if !writeOk(i) {
        return false, file;
      }
      file := file + buffer[..chunk];
      assert file == RandomFile(fill, i + chunk);
      NextChunkStart(i);
      i := i + WRITE_BUFFER;
    }
    return true, file;
  }

  /** The inner loop of `create_random_test_file`: the bytes drawn for positions
      `start .. start + len - 1`. */
  method FillDrawn(buffer: array<byte>, start: nat, len: nat, fill: nat -> byte)
    requires len <= buffer.Length
    modifies buffer
    ensures forall q :: 0 <= q < len ==> buffer[q] == fill(start + q)
  {
    for j := 0 to len
      invariant forall q :: 0 <= q < j ==> buffer[q] == fill(start + q)
    {
      buffer[j] := fill(start + j);
    }
  }

  lemma NextChunkStart(i: nat)
    requires i % WRITE_BUFFER == 0
    ensures forall p :: i < p < i + WRITE_BUFFER ==> p % WRITE_BUFFER != 0
    ensures (i + WRITE_BUFFER) % WRITE_BUFFER == 0
  {
  }

  // ---------------------------------------------------------------------------
  // Random write benchmark (rom_random.cpp:41-127)

  /** The file after the first `n` writes of the write loop over the pre-allocated zero
      file: write `k` puts `rand`'s `k`-th block at `Offset(pick(k))`. */
  function AfterRandomWrites(pick: nat -> Slot, rand: (nat, nat) -> byte, n: nat): (file: seq<byte>)
    ensures |file| == FILE_SIZE
  {
    if n == 0 then Zeros(FILE_SIZE)
    else Overwrite(AfterRandomWrites(pick, rand, n - 1), Offset(pick(n - 1)), RandomBlock(rand, n - 1, BLOCK_SIZE))
  }

  /** The latest of the first `n` writes that went to `slot`, if any. */
  function LastWriteTo(pick: nat -> Slot, n: nat, slot: Slot): (w: Option<nat>)
    ensures w.Some? ==> w.value < n && pick(w.value) == slot &&
                        forall k :: w.value < k < n ==> pick(k) != slot
    ensures w.None? ==> forall k :: 0 <= k < n ==> pick(k) != slot
  {
    if n == 0 then None
    else if pick(n - 1) == slot then Some(n - 1)
    else LastWriteTo(pick, n - 1, slot)
  }

  /** What the random writes leave in the file: each block holds the bytes of the last
      write that went to it, and a block no write went to is still zero. */
  lemma {:induction false} LastWriteWins(pick: nat -> Slot, rand: (nat, nat) -> byte, n: nat, slot: Slot, q: nat)
    requires q < BLOCK_SIZE
    ensures AfterRandomWrites(pick, rand, n)[Offset(slot) + q] ==
            match LastWriteTo(pick, n, slot)
            case None => 0
            case Some(k) => rand(k, q)
  {
    if n > 0 {
      var t := pick(n - 1);
      var prev := AfterRandomWrites(pick, rand, n - 1);
      var f := AfterRandomWrites(pick, rand, n);
      var block := RandomBlock(rand, n - 1, BLOCK_SIZE);
      assert f == prev[..Offset(t)] + block + prev[Offset(t) + BLOCK_SIZE..];
      if t == slot {
        assert f[Offset(slot) + q] == block[q];
      } else {
        LastWriteWins(pick, rand, n - 1, slot, q);
        SlotsDisjoint(slot, t, q);
        if Offset(slot) + q < Offset(t) {
          assert f[Offset(slot) + q] == prev[Offset(slot) + q];
        } else {
          assert f[Offset(slot) + q] == prev[Offset(slot) + q];
        }
      }
    }
  }

  /** The body of the write loop: draw the offset and the block, then `pwrite` it; a
      failing write leaves the file as it was. */
  method WriteIteration(file: seq<byte>, i: nat, block: array<byte>, pick: nat -> Slot,
                        rand: (nat, nat) -> byte, writeOk: nat -> bool)
    returns (ok: bool, f: seq<byte>)
    requires block.Length == BLOCK_SIZE && file == AfterRandomWrites(pick, rand, i)
    modifies block
    ensures ok == writeOk(i)
    ensures !ok ==> f == file
    ensures ok ==> f == AfterRandomWrites(pick, rand, i + 1)
  {
    var offset := Offset(pick(i));
    FillRandom(block, rand, i);
    if !writeOk(i) {
      return false, file;
    }
    return true, Overwrite(file, offset, block[..]);
  }

  /** The block loop of the write benchmark, over the pre-allocated file: it stops at
      the first failing write. A progress update is sent at every multiple of 1280
      after the first iteration. */
  method WriteBlocks(file0: seq<byte>, pick: nat -> Slot, rand: (nat, nat) -> byte, writeOk: nat -> bool)
    returns (file: seq<byte>, progress: seq<nat>)
    requires file0 == Zeros(FILE_SIZE)
    ensures var done := Completed(writeOk, ITERATIONS);
      file == AfterRandomWrites(pick, rand, done) &&
      progress == Multiples(1, done, PROGRESS_STEP)
  {
    var block := new byte[BLOCK_SIZE];
    file, progress := file0, [];
    var i := 0;
    var ok := true;
    while i < ITERATIONS && ok
      invariant i <= ITERATIONS
      invariant file == AfterRandomWrites(pick, rand, Completed(writeOk, i))
      invariant progress == Multiples(1, Completed(writeOk, i), PROGRESS_STEP)
      invariant ok ==> Completed(writeOk, i) == i
      invariant !ok ==> Completed(writeOk, ITERATIONS) == Completed(writeOk, i)
    {
      ok, file := WriteIteration(file, i, block, pick, rand, writeOk);
      if ok {
        progress := ReportProgress(progress, 1, i, PROGRESS_STEP);
      }
      i := i + 1;
    }
  }

  /** The random write benchmark. `preallocOk` and `openOk` say whether the
      pre-allocating open and the `O_RDWR` open succeed, `writeOk(i)` whether the
      `i`-th `pwrite` does. `file` is the test file just before it is removed,
      `removed` whether it is removed. */
  method RunRandomWrite(preallocOk: bool, openOk: bool, pick: nat -> Slot, rand: (nat, nat) -> byte,
                        writeOk: nat -> bool, durationMs: int)
    returns (code: int, progress: seq<nat>, file: seq<byte>, removed: bool)
    ensures !preallocOk ==> code == -1 && progress == [] && !removed
    ensures preallocOk ==> removed && |file| == FILE_SIZE
    ensures preallocOk && !openOk ==> code == -1 && progress == [] && file == Zeros(FILE_SIZE)
    ensures preallocOk && openOk ==>
      var done := Completed(writeOk, ITERATIONS);
      file == AfterRandomWrites(pick, rand, done) &&
      (done < ITERATIONS ==> code == -1 && progress == Multiples(1, done, PROGRESS_STEP)) &&
      (done == ITERATIONS ==> code == durationMs &&
                              progress == Multiples(1, ITERATIONS, PROGRESS_STEP) + [ITERATIONS])
  {
    if !preallocOk {
      return -1, [], [], false;
    }
    file := Preallocate(BLOCK_SIZE, ITERATIONS);
    Constants();
    if !openOk {
      return -1, [], file, true;
    }
    file, progress := WriteBlocks(file, pick, rand, writeOk);
    if Completed(writeOk, ITERATIONS) < ITERATIONS {
      return -1, progress, file, true;
    }
    progress := progress + [ITERATIONS];
    return durationMs, progress, file, true;
  }

  // ---------------------------------------------------------------------------
  // Random read benchmark (rom_random.cpp:129-214)

  /** The sum of the bytes of the blocks read in the first `n` iterations, block `k`
      being the one at `Offset(pick(k))`. */
  function PickedSum(file: seq<byte>, pick: nat -> Slot, n: nat): (r: nat)
    requires |file| == FILE_SIZE
  {
    if n == 0 then 0
    else PickedSum(file, pick, n - 1) + ByteSum(file[Offset(pick(n - 1))..Offset(pick(n - 1)) + BLOCK_SIZE])
  }

  /** Each block read adds at most `255 * block_size`, so a full run's sum stays far
      below 2^64: the `uint64_t` checksum never wraps. */
  lemma {:induction false} PickedSumBound(file: seq<byte>, pick: nat -> Slot, n: nat)
    requires |file| == FILE_SIZE
    ensures PickedSum(file, pick, n) <= 255 * BLOCK_SIZE * n
  {
    if n > 0 {
      PickedSumBound(file, pick, n - 1);
    }
  }

  lemma NoWrapAfterFullRun(file: seq<byte>, pick: nat -> Slot, n: nat)
    requires |file| == FILE_SIZE && n <= ITERATIONS
    ensures PickedSum(file, pick, n) % TWO_POW_64 == PickedSum(file, pick, n)
  {
    PickedSumBound(file, pick, n);
  }

  /** The block loop of the read benchmark: `pread` at the drawn offset, then every
      byte of the block is added to the `uint64_t` checksum; it stops at the first
      failing read. */
  method ReadBlocks(file: seq<byte>, pick: nat -> Slot, readOk: nat -> bool)
    returns (progress: seq<nat>, checksum: nat)
    requires |file| == FILE_SIZE
    ensures var done := Completed(readOk, ITERATIONS);
      progress == Multiples(1, done, PROGRESS_STEP) &&
      checksum == PickedSum(file, pick, done)
  {
    var block := new byte[BLOCK_SIZE];
    progress, checksum := [], 0;
    for i := 0 to ITERATIONS
      invariant checksum == PickedSum(file, pick, i)
      invariant progress == Multiples(1, i, PROGRESS_STEP)
      invariant Completed(readOk, i) == i
    {
      if !readOk(i) {
        CompletedIs(readOk, ITERATIONS, i);
        return;
      }
      CompletedStep(readOk, i);
      checksum := ReadBlock(file, pick, i, block, checksum);
      progress := ReportProgress(progress, 1, i, PROGRESS_STEP);
    }
  }

  /** One turn of the block loop: read block `i` into `block` and add its bytes to the
      checksum. */
  method ReadBlock(file: seq<byte>, pick: nat -> Slot, i: nat, block: array<byte>, checksum: nat)
    returns (next: nat)
    requires |file| == FILE_SIZE && i < ITERATIONS && block.Length == BLOCK_SIZE
    requires checksum == PickedSum(file, pick, i)
    modifies block
    ensures next == PickedSum(file, pick, i + 1)
  {
    ReadAt(file, Offset(pick(i)), block);
    NoWrapAfterFullRun(file, pick, i);
    next := AccumulateU64(checksum, block);
    NoWrapAfterFullRun(file, pick, i + 1);
  }

  /** The random read benchmark. The test file is made by `create_random_test_file`
      (`createOpenOk`, `createWriteOk`, `fill`); `openOk` says whether the `O_RDONLY`
      open succeeds, `readOk(i)` whether the `i`-th `pread` does. The checksum is
      computed and then discarded; it is returned here so that what the loop reads
      can be stated. */
  method RunRandomRead(createOpenOk: bool, createWriteOk: nat -> bool, fill: nat -> byte,
                       openOk: bool, pick: nat -> Slot, readOk: nat -> bool, durationMs: int)
    returns (code: int, progress: seq<nat>, checksum: nat, removed: bool)
    ensures var created := createOpenOk &&
              forall i :: 0 <= i < FILE_SIZE && i % WRITE_BUFFER == 0 ==> createWriteOk(i);
      (!created ==> code == -1 && progress == [] && !removed) &&
      (created ==> removed) &&
      (created && !openOk ==> code == -1 && progress == [])
    ensures var created := createOpenOk &&
              forall i :: 0 <= i < FILE_SIZE && i % WRITE_BUFFER == 0 ==> createWriteOk(i);
      var done := Completed(readOk, ITERATIONS);
      (created && openOk && done == ITERATIONS ==>
        code == durationMs &&
        progress == Multiples(1, ITERATIONS, PROGRESS_STEP) + [ITERATIONS] &&
        checksum == PickedSum(RandomFile(fill, FILE_SIZE), pick, ITERATIONS)) &&
      (created && openOk && done < ITERATIONS ==>
        code == -1 && progress == Multiples(1, done, PROGRESS_STEP))
  {
    var ok, file := CreateRandomTestFile(FILE_SIZE, createOpenOk, createWriteOk, fill);
    if !ok {
      return -1, [], 0, false;
    }
    if !openOk {
      return -1, [], 0, true;
    }
    progress, checksum := ReadBlocks(file, pick, readOk);
    if Completed(readOk, ITERATIONS) < ITERATIONS {
      return -1, progress, checksum, true;
    }
    progress := progress + [ITERATIONS];
    return durationMs, progress, checksum, true;
  }
}
