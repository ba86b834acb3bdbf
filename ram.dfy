/** The memory benchmarks (ram.cpp): a 768 MiB buffer filled with the counting pattern,
    and that buffer read back into a one-byte running sum. Whether the allocation
    succeeds is a parameter; progress updates are recorded by their numerator `i` over
    the buffer size, and the final 1.0 as the buffer size itself. */
module Ram {
  import opened Common

  const BUFFER_SIZE: nat := 768 * 1024 * 1024
  /** `buffer_size / total_progress_updates` */
  const PROGRESS_STEP: nat := 8053063

  lemma Constants()
    ensures PROGRESS_STEP == BUFFER_SIZE / 100
  {
  }

  /** The loop writing `buffer[i] = i & 0xFF`, with a progress update at every index
      that is a multiple of the progress step, starting with index 0. */
  method FillAndReport(buffer: array<byte>) returns (progress: seq<nat>)
    requires buffer.Length == BUFFER_SIZE
    modifies buffer
    ensures buffer[..] == CountingBytes(BUFFER_SIZE)
    ensures progress == Multiples(0, BUFFER_SIZE, PROGRESS_STEP)
  {
    progress := [];
    for i := 0 to BUFFER_SIZE
      invariant forall q :: 0 <= q < i ==> buffer[q] == LowByte(q)
      invariant progress == Multiples(0, i, PROGRESS_STEP)
    {
      buffer[i] := LowByte(i);
      progress := ReportProgress(progress, 0, i, PROGRESS_STEP);
    }
  }

  /** The sequential write benchmark. `contents` is the buffer just before it is
      freed. */
  method RunRamWrite(allocOk: bool, durationMs: int)
    returns (code: int, progress: seq<nat>, contents: seq<byte>)
    ensures !allocOk ==> code == -1 && progress == []
    ensures allocOk ==> code == durationMs && contents == CountingBytes(BUFFER_SIZE) &&
                        progress == Multiples(0, BUFFER_SIZE, PROGRESS_STEP) + [BUFFER_SIZE]
  {
    if !allocOk {
      return -1, [], [];
    }
    var buffer := new byte[BUFFER_SIZE];
    progress := FillAndReport(buffer);
    progress := progress + [BUFFER_SIZE];
    return durationMs, progress, buffer[..];
  }

  /** The fill loop of the read benchmark, without progress updates. */
  method Fill(buffer: array<byte>)
    modifies buffer
    ensures buffer[..] == CountingBytes(buffer.Length)
  {
    for i := 0 to buffer.Length
      invariant forall q :: 0 <= q < i ==> buffer[q] == LowByte(q)
    {
      buffer[i] := LowByte(i);
    }
  }

  /** The read loop `sum += buffer[i]` on a `char`, whose bits wrap modulo 256, with the
      same progress updates as the write loop. The buffer is only read. */
  method SumAndReport(buffer: array<byte>) returns (sum: nat, progress: seq<nat>)
    requires buffer.Length == BUFFER_SIZE
    ensures sum == ByteSum(buffer[..]) % 256
    ensures progress == Multiples(0, BUFFER_SIZE, PROGRESS_STEP)
  {
    sum, progress := 0, [];
    for i := 0 to BUFFER_SIZE
      invariant sum == ByteSum(buffer[..i]) % 256
      invariant progress == Multiples(0, i, PROGRESS_STEP)
    {
      assert buffer[..i + 1] == buffer[..i] + [buffer[i]];
      CharSumStep(buffer[..i], buffer[i]);
      sum := (sum + buffer[i] as int) % 256;
      progress := ReportProgress(progress, 0, i, PROGRESS_STEP);
    }
    assert buffer[..] == buffer[..BUFFER_SIZE];
  }

  /** Adding one more byte to a `char` sum. */
  lemma CharSumStep(s: seq<byte>, b: byte)
    ensures (ByteSum(s) % 256 + b as int) % 256 == ByteSum(s + [b]) % 256
  {
    ByteSumSnoc(s, b);
    ModAdd(ByteSum(s), b as int, 256);
  }

  /** The sequential read benchmark. `sum` is the bits of the final `char` sum, as an
      unsigned value. */
  method RunRamRead(allocOk: bool, durationMs: int)
    returns (code: int, progress: seq<nat>, sum: nat)
    ensures !allocOk ==> code == -1 && progress == []
    ensures allocOk ==> code == durationMs && sum == ByteSum(CountingBytes(BUFFER_SIZE)) % 256 == 0 &&
                        progress == Multiples(0, BUFFER_SIZE, PROGRESS_STEP) + [BUFFER_SIZE]
  {
    if !allocOk {
      return -1, [], 0;
    }
    var buffer := new byte[BUFFER_SIZE];
    Fill(buffer);
    sum, progress := SumAndReport(buffer);
    RamReadSum();
    progress := progress + [BUFFER_SIZE];
    return durationMs, progress, sum;
  }

  /** The buffer holds 3145728 full runs `0 .. 255`, each adding 32640 = 128 (mod 256),
      so the read loop's sum always ends at 0. */
  lemma RamReadSum()
    ensures ByteSum(CountingBytes(BUFFER_SIZE)) % 256 == 0
  {
    CountingSum(BUFFER_SIZE);
  }

  /** Each loop sends 101 updates (at 0, 8053063, ..., 100 * 8053063) before the final 1.0. */
  lemma ProgressUpdates()
    ensures |Multiples(0, BUFFER_SIZE, PROGRESS_STEP)| == 101
  {
    MultiplesFromZeroCount(BUFFER_SIZE, PROGRESS_STEP);
  }
}
