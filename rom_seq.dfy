/** The sequential storage benchmarks (rom_seq.cpp): a 500 MiB file written, or read,
    in 4 MiB blocks from start to end. Files are byte sequences; whether an open, an
    allocation or a write succeeds is a parameter, and the random bytes written come
    from `rand(iteration, index)`. */
module RomSeq {
  import opened Common

  const FILE_SIZE: nat := 500 * 1024 * 1024
  const BLOCK_SIZE: nat := 4 * 1024 * 1024
  /** `file_size / block_size` */
  const ITERATIONS: nat := 125
  /** The buffer `create_test_file` fills and writes, 64 KiB. */
  const WRITE_BUFFER: nat := 64 * 1024
  /** `iterations / total_progress_updates` */
  const PROGRESS_STEP: nat := 1

  lemma Constants()
    ensures ITERATIONS == FILE_SIZE / BLOCK_SIZE && ITERATIONS * BLOCK_SIZE == FILE_SIZE
    ensures PROGRESS_STEP == ITERATIONS / 100
  {
  }

  /** The file offset of block `i`, `i * block_size`; the blocks fill the file exactly. */
  function BlockStart(i: nat): (p: nat)
    requires i <= ITERATIONS
    ensures i < ITERATIONS ==> p + BLOCK_SIZE <= FILE_SIZE
    ensures i == ITERATIONS ==> p == FILE_SIZE
  {
    i * BLOCK_SIZE
  }

  lemma NextBlockStart(i: nat)
    requires i < ITERATIONS
    ensures BlockStart(i + 1) == BlockStart(i) + BLOCK_SIZE
  {
  }

  // ---------------------------------------------------------------------------
  // create_test_file (rom_seq.cpp:18-35)

  /** Writes `size` bytes of the counting pattern in chunks of at most 64 KiB.
      `writeOk(i)` says whether the write of the chunk starting at byte `i` succeeds;
      the file holds the chunks written before the first failing one. */
  method CreateTestFile(size: nat, openOk: bool, writeOk: nat -> bool) returns (ok: bool, file: seq<byte>)
    ensures ok <==> openOk && forall i :: 0 <= i < size && i % WRITE_BUFFER == 0 ==> writeOk(i)
    ensures ok ==> file == CountingBytes(size)
    ensures file == CountingBytes(|file|) && |file| <= size
  {
    if !openOk {
      return false, [];
    }
    var buffer := new byte[WRITE_BUFFER];
    file := [];
    var i := 0;
    while i < size
      invariant i % WRITE_BUFFER == 0
      invariant |file| == Min(i, size)
      invariant file == CountingBytes(|file|)
      invariant forall p :: 0 <= p < i && p < size && p % WRITE_BUFFER == 0 ==> writeOk(p)
    {
      var chunk := Min(WRITE_BUFFER, size - i);
      FillPattern(buffer, i, chunk);
      if !writeOk(i) {
        return false, file;
      }
      CountingBytesExtend(i, buffer[..chunk]);
      file := file + buffer[..chunk];
      NextChunkStart(i);
      i := i + WRITE_BUFFER;
    }
    return true, file;
  }

  /** The inner loop of `create_test_file`: `buffer[j] = (i + j) & 0xFF` for `j < len`. */
  method FillPattern(buffer: array<byte>, start: nat, len: nat)
    requires len <= buffer.Length
    modifies buffer
    ensures forall q :: 0 <= q < len ==> buffer[q] == LowByte(start + q)
  {
    for j := 0 to len
      invariant forall q :: 0 <= q < j ==> buffer[q] == LowByte(start + q)
    {
      buffer[j] := LowByte(start + j);
    }
  }

  lemma CountingBytesExtend(start: nat, s: seq<byte>)
    requires forall q :: 0 <= q < |s| ==> s[q] == LowByte(start + q)
    ensures CountingBytes(start) + s == CountingBytes(start + |s|)
  {
  }

  /** No chunk start lies strictly inside a chunk. */
  lemma NextChunkStart(i: nat)
    requires i % WRITE_BUFFER == 0
    ensures forall p :: i < p < i + WRITE_BUFFER ==> p % WRITE_BUFFER != 0
    ensures (i + WRITE_BUFFER) % WRITE_BUFFER == 0
  {
  }

  // ---------------------------------------------------------------------------
  // Sequential write benchmark (rom_seq.cpp:37-102)

  /** The blocks of iterations `0 .. n - 1`, one after another. */
  function RandomBlocks(rand: (nat, nat) -> byte, n: nat): (s: seq<byte>)
    requires n <= ITERATIONS
    ensures |s| == BlockStart(n)
  {
    if n == 0 then []
    else
      NextBlockStart(n - 1);
      RandomBlocks(rand, n - 1) + RandomBlock(rand, n - 1, BLOCK_SIZE)
  }

  /** The file after the first `n` block writes of the write loop, each at the
      descriptor's current offset, over the pre-allocated zero file. */
  function AfterWrites(rand: (nat, nat) -> byte, n: nat): (file: seq<byte>)
    requires n <= ITERATIONS
    ensures |file| == FILE_SIZE
  {
    if n == 0 then Zeros(FILE_SIZE)
    else Overwrite(AfterWrites(rand, n - 1), BlockStart(n - 1), RandomBlock(rand, n - 1, BLOCK_SIZE))
  }

  /** The sequential writes lay the random blocks down in order from the start of the
      file, over the zeros of the pre-allocation. */
  lemma {:induction false} WritesInOrder(rand: (nat, nat) -> byte, n: nat)
    requires n <= ITERATIONS
    ensures AfterWrites(rand, n) == RandomBlocks(rand, n) + Zeros(FILE_SIZE - BlockStart(n))
  {
    if n > 0 {
      var m := n - 1;
      WritesInOrder(rand, m);
      NextBlockStart(m);
      var f := AfterWrites(rand, m);
      assert f[..BlockStart(m)] == RandomBlocks(rand, m);
      assert f[BlockStart(n)..] == Zeros(FILE_SIZE - BlockStart(n));
    }
  }

  /** The body of the write loop: draw the block, then write it at the descriptor's
      offset, `i * block_size`; a failing write leaves the file as it was. */
  method WriteIteration(file: seq<byte>, i: nat, block: array<byte>, rand: (nat, nat) -> byte,
                        writeOk: nat -> bool)
    returns (ok: bool, f: seq<byte>)
    requires i < ITERATIONS && block.Length == BLOCK_SIZE && file == AfterWrites(rand, i)
    modifies block
    ensures ok == writeOk(i)
    ensures !ok ==> f == file
    ensures ok ==> f == AfterWrites(rand, i + 1)
  {
    FillRandom(block, rand, i);
    if !writeOk(i) {
      return false, file;
    }
    NextBlockStart(i);
    return true, Overwrite(file, BlockStart(i), block[..]);
  }

  /** The block loop of the write benchmark, over a pre-allocated file: it stops at
      the first failing write, having written the blocks before it. */
  method WriteBlocks(file0: seq<byte>, writeOk: nat -> bool, rand: (nat, nat) -> byte)
    returns (file: seq<byte>, progress: seq<nat>)
    requires file0 == Zeros(FILE_SIZE)
    ensures var done := Completed(writeOk, ITERATIONS);
      file == AfterWrites(rand, done) &&
      progress == Multiples(1, done, PROGRESS_STEP)
  {
    var block := new byte[BLOCK_SIZE];
    file, progress := file0, [];
    for i := 0 to ITERATIONS
      invariant file == AfterWrites(rand, i)
      invariant progress == Multiples(1, i, PROGRESS_STEP)
      invariant forall k :: 0 <= k < i ==> writeOk(k)
    {
      var ok;
      ok, file := WriteIteration(file, i, block, rand, writeOk);
      if !ok {
        CompletedIs(writeOk, ITERATIONS, i);
        return;
      }
      progress := ReportProgress(progress, 1, i, PROGRESS_STEP);
    }
    CompletedIs(writeOk, ITERATIONS, ITERATIONS);
  }

  /** The sequential write benchmark. `preallocOk` and `openOk` say whether the two
      opens succeed, `writeOk(i)` whether the `i`-th block write does, `durationMs`
      what the clock measures. `file` is the test file just before it is removed,
      `removed` whether it is removed. */
  method RunSequentialWrite(preallocOk: bool, openOk: bool, writeOk: nat -> bool,
                            rand: (nat, nat) -> byte, durationMs: int)
    returns (code: int, progress: seq<nat>, file: seq<byte>, removed: bool)
    ensures !preallocOk ==> code == -1 && progress == [] && !removed
    ensures preallocOk ==> removed
    ensures preallocOk && !openOk ==> code == -1 && progress == [] && file == Zeros(FILE_SIZE)
    ensures preallocOk && openOk ==>
      var done := Completed(writeOk, ITERATIONS);
      file == AfterWrites(rand, done) &&
      (done < ITERATIONS ==> code == -1 && progress == Multiples(1, done, PROGRESS_STEP)) &&
      (done == ITERATIONS ==> code == durationMs && progress == Multiples(1, ITERATIONS, PROGRESS_STEP) + [ITERATIONS] &&
                              file == RandomBlocks(rand, ITERATIONS))
  {
    if !preallocOk {
      return -1, [], [], false;
    }
    file := Preallocate(BLOCK_SIZE, ITERATIONS);
    Constants();
    if !openOk {
      return -1, [], file, true;
    }
    file, progress := WriteBlocks(file, writeOk, rand);
    if Completed(writeOk, ITERATIONS) < ITERATIONS {
      return -1, progress, file, true;
    }
    WritesInOrder(rand, ITERATIONS);
    progress := progress + [ITERATIONS];
    return durationMs, progress, file, true;
  }

  // ---------------------------------------------------------------------------
  // Sequential read benchmark (rom_seq.cpp:104-195)

  /** One iteration's read and checksum loop: the checksum of the first `i` blocks
      becomes that of the first `i + 1`. */
  method ReadAndSum(file: seq<byte>, i: nat, block: array<byte>, checksum: nat) returns (c: nat)
    requires block.Length == BLOCK_SIZE && i < ITERATIONS && |file| == FILE_SIZE
    requires checksum == ByteSum(file[..BlockStart(i)]) % TWO_POW_64
    modifies block
    ensures c == ByteSum(file[..BlockStart(i + 1)]) % TWO_POW_64
  {
    NextBlockStart(i);
    ReadAt(file, BlockStart(i), block);
    BlockSumStep(file, i);
    ModAdd(ByteSum(file[..BlockStart(i)]), ByteSum(block[..]), TWO_POW_64);
    c := AccumulateU64(checksum, block);
  }

  /** The block loop of the read benchmark: it stops at the first failing read, having
      added every byte of the blocks read before it to the `uint64_t` checksum. */
  method ReadBlocks(file: seq<byte>, readOk: nat -> bool) returns (progress: seq<nat>, checksum: nat)
    requires |file| == FILE_SIZE
    ensures var done := Completed(readOk, ITERATIONS);
      progress == Multiples(1, done, PROGRESS_STEP) &&
      checksum == ByteSum(file[..BlockStart(done)]) % TWO_POW_64
  {
    var block := new byte[BLOCK_SIZE];
    progress, checksum := [], 0;
    for i := 0 to ITERATIONS
      invariant checksum == ByteSum(file[..BlockStart(i)]) % TWO_POW_64
      invariant progress == Multiples(1, i, PROGRESS_STEP)
      invariant forall k :: 0 <= k < i ==> readOk(k)
    {
      if !readOk(i) {
        CompletedIs(readOk, ITERATIONS, i);
        return;
      }
      checksum := ReadAndSum(file, i, block, checksum);
      progress := ReportProgress(progress, 1, i, PROGRESS_STEP);
    }
    CompletedIs(readOk, ITERATIONS, ITERATIONS);
  }

  /** The sequential read benchmark. The test file is made by `create_test_file`
      (`createOpenOk`, `createWriteOk`); `openOk` and `allocOk` say whether the
      `O_RDONLY` open and `posix_memalign` succeed, `readOk(i)` whether the `i`-th
      read does. */
  method RunSequentialRead(createOpenOk: bool, createWriteOk: nat -> bool, openOk: bool,
                           allocOk: bool, readOk: nat -> bool, durationMs: int)
    returns (code: int, progress: seq<nat>, checksum: nat, removed: bool)
    ensures var created := createOpenOk &&
              forall i :: 0 <= i < FILE_SIZE && i % WRITE_BUFFER == 0 ==> createWriteOk(i);
      (!created ==> code == -1 && progress == [] && !removed) &&
      (created ==> removed) &&
      (created && !(openOk && allocOk) ==> code == -1 && progress == [])
    ensures var created := createOpenOk &&
              forall i :: 0 <= i < FILE_SIZE && i % WRITE_BUFFER == 0 ==> createWriteOk(i);
      var done := Completed(readOk, ITERATIONS);
      (created && openOk && allocOk && done == ITERATIONS ==>
        code == durationMs &&
        progress == Multiples(1, ITERATIONS, PROGRESS_STEP) + [ITERATIONS] &&
        checksum == ByteSum(CountingBytes(FILE_SIZE)) % TWO_POW_64) &&
      (created && openOk && allocOk && done < ITERATIONS ==>
        code == -1 && progress == Multiples(1, done, PROGRESS_STEP))
  {
    var ok, file := CreateTestFile(FILE_SIZE, createOpenOk, createWriteOk);
    if !ok {
      return -1, [], 0, false;
    }
    if !openOk || !allocOk {
      return -1, [], 0, true;
    }
    progress, checksum := ReadBlocks(file, readOk);
    if Completed(readOk, ITERATIONS) < ITERATIONS {
      return -1, progress, checksum, true;
    }
    assert file[..BlockStart(ITERATIONS)] == file;
    progress := progress + [ITERATIONS];
    return durationMs, progress, checksum, true;
  }

  lemma BlockSumStep(file: seq<byte>, i: nat)
    requires i < ITERATIONS && |file| == FILE_SIZE
    ensures ByteSum(file[..BlockStart(i + 1)]) ==
            ByteSum(file[..BlockStart(i)]) + ByteSum(file[BlockStart(i)..BlockStart(i + 1)])
  {
    NextBlockStart(i);
    assert file[..BlockStart(i + 1)] == file[..BlockStart(i)] + file[BlockStart(i)..BlockStart(i + 1)];
    ByteSumAppend(file[..BlockStart(i)], file[BlockStart(i)..BlockStart(i + 1)]);
  }

  /** The checksum of a complete read is 66846720000, which is not 0 modulo 2^64: the
      "checksum is zero" branch is never taken after a complete read. */
  lemma SequentialReadChecksum()
    ensures ByteSum(CountingBytes(FILE_SIZE)) % TWO_POW_64 == 66846720000
  {
    CountingSum(FILE_SIZE);
  }
}
