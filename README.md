# MaterialBench, modelled in Dafny

MaterialBench is an Android benchmark. Its native half (C++ behind JNI) times a set of
workloads:

- integer and floating-point maths on one core and on all cores;
- AES-256-CTR encryption and decryption on one core and on all cores;
- writing and reading a 768 MiB RAM buffer;
- sequential and random writes and reads of a 500 MiB file;
- a tiled 8192x8192 GEMM dispatch on a shared Vulkan compute context.

Each workload reports its progress to the activity as it runs. Each one returns its
duration in milliseconds, or -1 (or another negative code) when it fails.

The Kotlin half has four parts:

- a benchmark screen that runs the steps in order, turns each duration into a score,
  and sums the scores into four categories and an overall score;
- a stress screen that samples the battery temperature once a second. It keeps a chart
  that compresses itself as it grows, and stops the stress test when a threshold is
  crossed;
- the loader that repacks the AI benchmark's test image to three bytes per pixel;
- the check that the ray-tracing companion app is signed by the expected certificate.

The Dafny modules follow the source files:

| module | file | source |
|---|---|---|
| `Common` | `common.dfy` | shared pieces: byte patterns, integer wrap-around, progress schedules, file writes, early-exit loops |
| `CpuMath` | `cpu_math.dfy` | `cpu_math.cpp` |
| `CpuCrypto` | `cpu_crypto.dfy` | `cpu_crypto.cpp` |
| `Ram` | `ram.dfy` | `ram.cpp` |
| `RomSeq` | `rom_seq.dfy` | `rom_seq.cpp` |
| `RomRandom` | `rom_random.dfy` | `rom_random.cpp` |
| `VulkanCompute` | `vulkan_compute.dfy` | `vulkan_compute.cpp` |
| `DeviceUtils` | `utils.dfy` | `utils.cpp` |
| `BenchScreen` | `bench_activity.dfy` | `BenchActivity.kt` |
| `StressScreen` | `main_activity.dfy` | `MainActivity.kt` |
| `BitmapUtils` | `bitmap_utils.dfy` | `BitmapUtils.kt` |
| `IntegrityChecker` | `integrity_checker.dfy` | `IntegrityChecker.kt` |

What the system around the code provides becomes a parameter of the model:

- whether an allocation, `open`, `write`, `pread`, `pwrite`, an EVP call or a Vulkan call
  succeeds (a flag, or a function from the loop index to a flag);
- the random generator's bytes and offsets (functions of the iteration);
- the sysfs frequency readings and the battery temperatures;
- the time a run takes (`durationMs`);
- the AES keystream (`Keystream`);
- SHA-256.

Progress is recorded as the sequence of numerators passed to `update_progress`. The
final `1.0` is the denominator itself.

Mutable state is modelled in place:

- the buffers the benchmarks fill, encrypt and read are `array`s that the methods
  modify;
- the task counter and the crypto threads' shared counter and flag are classes with
  `modifies` clauses;
- the global Vulkan context, the stress screen's state and the benchmark run's state are
  classes too.

Pure computations are functions with lemmas: the task split, the IV derivation, the
dispatch tiling, the score arithmetic, the chart compression and the axis labels.

## Model

| member | source | states |
|---|---|---|
| Common.LowByte | app/src/main/cpp/ram.cpp:42 | `static_cast<char>(i & 0xFF)` stores `i` modulo 256 |
| Common.CountingBytes | app/src/main/cpp/ram.cpp:41-42 | byte `p` of the test pattern is `p & 0xFF`, for every position below the length |
| Common.WrapU64 | app/src/main/cpp/rom_seq.cpp:166-168 | a `uint64_t` accumulator holds the value modulo 2^64: in `[0, 2^64)` and congruent to the exact value |
| Common.WrapI32 | app/src/main/java/com/komarudude/materialbench/ui/BenchActivity.kt:196-199 | a Kotlin `Int` result is the two's-complement value in `[-2^31, 2^31)` congruent to the exact one |
| Common.WrapI32Add | app/src/main/java/com/komarudude/materialbench/ui/BenchActivity.kt:353-357 | adding wrapped `Int`s and wrapping again equals wrapping the exact sum |
| Common.ByteSum | app/src/main/cpp/rom_seq.cpp:166-168 | the exact sum of a block's bytes is at most 255 per byte |
| Common.CountingBytesSum | app/src/main/cpp/rom_seq.cpp:28 | the bytes of the test pattern sum to the pattern's integer sum |
| Common.PatternSumClosed | app/src/main/cpp/ram.cpp:75-77 | closed form of the pattern's sum: 32640 per full run `0..255` plus the partial run's triangle number |
| Common.Multiples | app/src/main/cpp/ram.cpp:45-48 | the progress indices in `[lo, hi)` are exactly the multiples of `step` there, strictly increasing |
| Common.MultiplesFromZeroCount | app/src/main/cpp/ram.cpp:36-37 | `[0, hi)` holds `ceil(hi / step)` multiples of `step` |
| Common.Zeros | app/src/main/cpp/rom_seq.cpp:52-60 | `n` zero bytes |
| Common.ReportProgress | app/src/main/cpp/ram.cpp:45-48 | one turn of a progress test extends the indices reported for `[lo, i)` to those for `[lo, i + 1)`: `i` is added exactly when it is a multiple of `step` at or above `lo` |
| Common.Overwrite | app/src/main/cpp/rom_random.cpp:101-102 | a `pwrite` inside the file replaces exactly the block's bytes, keeps the length and leaves the bytes before and after as they were |
| Common.Preallocate | app/src/main/cpp/rom_seq.cpp:52-60 | pre-allocation writes `count` zero blocks one after another: the file is `blockSize * count` zero bytes |
| Common.RandomBlock | app/src/main/cpp/rom_seq.cpp:79-81 | the block drawn in iteration `i` has the requested length and holds the generator's values for that iteration |
| Common.FillRandom | app/src/main/cpp/rom_seq.cpp:79-81 | the fill loop leaves the block equal to that iteration's drawn bytes |
| Common.ReadAt | app/src/main/cpp/rom_random.cpp:185 | a full `pread` copies the file's bytes at the offset into the block |
| Common.Completed | app/src/main/cpp/rom_seq.cpp:78-87 | the number of loop steps done before the first failing one: all steps below it succeed and the step at it fails |
| Common.CompletedIs | app/src/main/cpp/rom_seq.cpp:78-87 | `Completed` is the unique count whose steps all succeed and which is followed by a failure or the end |
| Common.AccumulateU64 | app/src/main/cpp/rom_seq.cpp:166-168 | `checksum += block[j]` over a block gives the old checksum plus the block's byte sum, modulo 2^64 |
| Common.CountToValues | app/src/main/cpp/vulkan_compute.cpp:247-249 | the `k`-th progress update reports `k + 1` finished units (batches here, cipher passes in the multi-core AES run) |
| CpuMath.TaskEndIsNextStart | app/src/main/cpp/cpu_math.cpp:147-148 | each task ends exactly where the next one starts |
| CpuMath.TasksSpanWholeRange | app/src/main/cpp/cpu_math.cpp:116-118 | task 0 starts at 0 and task 99 ends at `total_iterations` |
| CpuMath.TaskSizesBalanced | app/src/main/cpp/cpu_math.cpp:117-118 | a task gets `task_size + 1` iterations exactly when its index is below `remainder`, else `task_size`; sizes differ by at most one |
| CpuMath.TasksOrdered | app/src/main/cpp/cpu_math.cpp:147-148 | an earlier task lies entirely before a later one |
| CpuMath.TaskContaining | app/src/main/cpp/cpu_math.cpp:147-148 | finds, from task `k` on, the task whose range holds iteration `x` |
| CpuMath.TasksPartition | app/src/main/cpp/cpu_math.cpp:116-118 | every iteration below `total_iterations` lies in exactly one of the 100 tasks |
| CpuMath.TaskPool.constructor | app/src/main/cpp/cpu_math.cpp:120-121 | both atomics start at 0 |
| CpuMath.TaskPool.Claim | app/src/main/cpp/cpu_math.cpp:144 | `next_task.fetch_add(1)` returns the old index and advances it by one |
| CpuMath.TaskPool.AddCompleted | app/src/main/cpp/cpu_math.cpp:155-156 | `completed_iterations.fetch_add` adds the task's units and returns the new total |
| CpuMath.PendingUpdate | app/src/main/cpp/cpu_math.cpp:143-162 | changing one worker's state changes the claimed-but-unreported iterations by exactly that worker's difference |
| CpuMath.UnreportedUpdate | app/src/main/cpp/cpu_math.cpp:155-161 | changing one worker's state changes the added-but-unsent sums by exactly that worker's difference |
| CpuMath.NothingPendingWhenAllExited | app/src/main/cpp/cpu_math.cpp:168 | once every worker has left its loop, no claimed iterations are left unadded and no sum is left unsent |
| CpuMath.StepsUpOrdered | app/src/main/cpp/cpu_math.cpp:155-156 | a sequence of sums that never steps down is sorted, and one that always steps up is strictly increasing |
| CpuMath.TaskUnitsPositive | app/src/main/cpp/cpu_math.cpp:116-118 | with at least 100 iterations every task runs at least one, so every add moves `completed_iterations` forward |
| CpuMath.UnreportedKept | app/src/main/cpp/cpu_math.cpp:143-152 | a worker that claims or exits holds no unsent sum before or after, so the unsent sums are unchanged |
| CpuMath.ClaimStep | app/src/main/cpp/cpu_math.cpp:144-148 | a claim keeps the invariant: below 100 the worker holds the next index and that claim is recorded under it; at or above 100 it exits |
| CpuMath.ClaimsAfterClaim | app/src/main/cpp/cpu_math.cpp:144-148 | after a claim below 100 the claims are still the indices 0.. in order, and the holding worker is the one recorded for its task |
| CpuMath.ClaimsAfterRelease | app/src/main/cpp/cpu_math.cpp:155-161 | a worker moving from its task to adding or sending keeps the claims consistent |
| CpuMath.AddStep | app/src/main/cpp/cpu_math.cpp:155-156 | adding a finished task's units keeps the invariant, with the new sum recorded as an add and still to be sent by that worker |
| CpuMath.SumsAfterAdd | app/src/main/cpp/cpu_math.cpp:155-156 | the sum an add returns is `completed_iterations` plus the iterations still held equals the start of the first unclaimed task, and it is at least (with at least 100 iterations, above) every earlier sum |
| CpuMath.ReportsAfterAdd | app/src/main/cpp/cpu_math.cpp:155-156 | the sum just added becomes the adding worker's unsent sum: sent plus unsent sums are still exactly the adds |
| CpuMath.ReportStep | app/src/main/cpp/cpu_math.cpp:157-161 | sending the pending sum moves it from the worker to the progress reports, keeping the invariant |
| CpuMath.TakeTask | app/src/main/cpp/cpu_math.cpp:144-145 | `next_task.fetch_add(1)`: at or above 100 the worker exits, else it holds that task and the claim is recorded; the invariant is kept |
| CpuMath.FinishTask | app/src/main/cpp/cpu_math.cpp:155-156 | `completed_iterations.fetch_add(units) + units`: the returned sum is the new counter, it is recorded as an add and held for sending; the invariant is kept |
| CpuMath.WorkerStep | app/src/main/cpp/cpu_math.cpp:143-162 | one turn of a worker (claim, add, or send) keeps the invariant tying `next_task`, `completed_iterations`, the claims, the adds and the reports together; other workers are untouched; an exited worker changes nothing; the worker's remaining turns strictly decrease |
| CpuMath.RunTurns | app/src/main/cpp/cpu_math.cpp:134-162 | any interleaving of worker turns keeps the invariant |
| CpuMath.JoinWorkers | app/src/main/cpp/cpu_math.cpp:168 | joining the threads one after another runs every worker to its exit, keeping the invariant |
| CpuMath.RunMulticore | app/src/main/cpp/cpu_math.cpp:109-178 | 0 is returned before any thread when `total_iterations <= 0` or there is no activity; otherwise `max(1, hardware_concurrency)` workers run, every task index 0..99 is claimed exactly once, in order; `completed_iterations` ends at `total_iterations`; the 100 sums the adds returned never decrease (strictly increase with at least 100 iterations) and end at `total_iterations`; the first 100 progress values sent are those sums in some order, each within `[0, total_iterations]`, and the final 1.0 is sent after the join, for any schedule |
| CpuMath.AllJoined | app/src/main/cpp/cpu_math.cpp:168-172 | once every worker has exited, all 100 tasks were claimed and added, the sums are ordered and end at `total_iterations`, and the values sent are exactly the sums |
| CpuMath.ReportsWithinSums | app/src/main/cpp/cpu_math.cpp:157-161 | every value sent is one of the sums, hence within `[0, total_iterations]` |
| CpuMath.NothingPendingWhenAllIdle | app/src/main/cpp/cpu_math.cpp:134-143 | when the workers start, no iterations are claimed and no sum is unsent |
| CpuMath.StartConsistent | app/src/main/cpp/cpu_math.cpp:120-134 | when the workers start, with both atomics at 0, the invariant holds |
| CpuMath.Observe | app/src/main/cpp/cpu_math.cpp:68-69 | the counter the reporter reads never decreases below what it saw and is `total_iterations` once all increments are in |
| CpuMath.SingleCoreReporter | app/src/main/cpp/cpu_math.cpp:68-81 | the reporter's progress numerators are non-decreasing, within `[0, total]`, and end with the final 1.0 |
| CpuCrypto.WithCounter | app/src/main/cpp/cpu_crypto.cpp:17-18 | replacing the counter word keeps the first 8 bytes of the IV |
| CpuCrypto.CounterOfWithCounter | app/src/main/cpp/cpu_crypto.cpp:17-18 | storing a 64-bit counter little-endian and reading it back gives the counter |
| CpuCrypto.WithOwnCounter | app/src/main/cpp/cpu_crypto.cpp:17-18 | storing the IV's own counter word back leaves the IV unchanged |
| CpuCrypto.DeriveIv | app/src/main/cpp/cpu_crypto.cpp:15-19 | the derived IV has 16 bytes |
| CpuCrypto.DeriveIvWords | app/src/main/cpp/cpu_crypto.cpp:15-19 | the derived IV keeps the first 8 bytes of the base IV and its little-endian counter word is the base's plus `block_index`, modulo 2^64 |
| CpuCrypto.DeriveIvZero | app/src/main/cpp/cpu_crypto.cpp:15-19 | block index 0 gives back the base IV |
| CpuCrypto.GetCtrIvForBlock | app/src/main/cpp/cpu_crypto.cpp:15-19 | after the `memcpy` and the in-place add, `out_iv` is the derived IV |
| CpuCrypto.CtrRoundTrip | app/src/main/cpp/cpu_crypto.cpp:197 | decrypting in CTR mode with the key and IV used to encrypt restores the data |
| CpuCrypto.CtrTransform | app/src/main/cpp/cpu_crypto.cpp:160 | one update call writes the CTR transform of the source range to the same range of the destination and nothing else |
| CpuCrypto.ChunkOffsetBounded | app/src/main/cpp/cpu_crypto.cpp:144-145 | every thread's offset lies within the buffer |
| CpuCrypto.ChunkLength | app/src/main/cpp/cpu_crypto.cpp:146-147 | each thread's chunk ends within the buffer |
| CpuCrypto.ChunksContiguous | app/src/main/cpp/cpu_crypto.cpp:144-147 | a chunk ends where the next one begins, and the last thread's ends at `SIZE` |
| CpuCrypto.ChunksOrdered | app/src/main/cpp/cpu_crypto.cpp:144-147 | thread 0 starts at 0 and an earlier thread's chunk lies entirely before a later one's |
| CpuCrypto.ChunkContaining | app/src/main/cpp/cpu_crypto.cpp:144-147 | finds, from thread `t` on, the thread whose chunk holds byte `x` |
| CpuCrypto.ChunksPartition | app/src/main/cpp/cpu_crypto.cpp:144-147 | with at least one thread, every byte of the buffer lies in exactly one chunk |
| CpuCrypto.FirstFailingCall | app/src/main/cpp/cpu_crypto.cpp:56-62 | the call at which a pass stops is the first failing one of context creation, init, update, final |
| CpuCrypto.ErrorCode | app/src/main/cpp/cpu_crypto.cpp:57-74 | a failing call returns a code in `[-9, -2]`, `-2..-5` for encryption and `-6..-9` for decryption |
| CpuCrypto.ErrorCodeDistinguishes | app/src/main/cpp/cpu_crypto.cpp:57-74 | different failing calls return different codes |
| CpuCrypto.FirstFailingPass | app/src/main/cpp/cpu_crypto.cpp:54-78 | the first failing pass in execution order, or none |
| CpuCrypto.AllocateBuffers | app/src/main/cpp/cpu_crypto.cpp:29-38 | three distinct buffers of `SIZE` bytes, the input holding the counting pattern |
| CpuCrypto.EncryptAll | app/src/main/cpp/cpu_crypto.cpp:56-63 | the encryption pass leaves the CTR transform of the input in the output buffer |
| CpuCrypto.DecryptAll | app/src/main/cpp/cpu_crypto.cpp:68-75 | decrypting the encrypted buffer restores the input |
| CpuCrypto.RunSingleCore | app/src/main/cpp/cpu_crypto.cpp:24-94 | -1 with no progress on allocation failure; otherwise the first failing call's code with the progress numerators sent before it, or the duration with progress `0, 1, ..., 400` and then 1.0; the final comparison never fails |
| CpuCrypto.UpTo | app/src/main/cpp/cpu_crypto.cpp:65 | the progress numerators `0, 1, ..., m - 1` |
| CpuCrypto.FirstFailingPassIs | app/src/main/cpp/cpu_crypto.cpp:54-78 | a failing pass with no failing pass before it is the first failing pass |
| CpuCrypto.NoFailingPass | app/src/main/cpp/cpu_crypto.cpp:54-78 | when no call of any pass fails, there is no first failing pass |
| CpuCrypto.CryptoShared.constructor | app/src/main/cpp/cpu_crypto.cpp:121-123 | the counter starts at 0, the error flag cleared, and no thread has sent progress |
| CpuCrypto.CryptoShared.FetchAddProgress | app/src/main/cpp/cpu_crypto.cpp:165-166 | `progress_counter` grows by one, the error flag is unchanged, and the counter as loaded right after is sent as progress |
| CpuCrypto.CryptoShared.RaiseError | app/src/main/cpp/cpu_crypto.cpp:157 | the error flag is set; the counter and the progress sent are unchanged |
| CpuCrypto.DeriveThreadIv | app/src/main/cpp/cpu_crypto.cpp:152-153 | iteration `iter` of the thread at offset `off` uses the IV of block `off / 16 + iter * (SIZE / 16)` |
| CpuCrypto.CipherPass | app/src/main/cpp/cpu_crypto.cpp:155-166 | a pass either raises the error flag or encrypts its range and counts one step; the values sent stay `1, 2, ...` up to the counter; bytes outside the range are untouched |
| CpuCrypto.RunIteration | app/src/main/cpp/cpu_crypto.cpp:149-180 | the flag is raised exactly when a call of the iteration fails; otherwise the counter grows by 2, the chunk is encrypted under the iteration's IV and decrypts back to the input |
| CpuCrypto.RunThread | app/src/main/cpp/cpu_crypto.cpp:131-185 | a thread raises the flag exactly when attaching or some call fails; otherwise it adds `2 * ITERATIONS` to the counter and leaves its chunk encrypted under its last IV and restored in the output |
| CpuCrypto.RunThreads | app/src/main/cpp/cpu_crypto.cpp:131-188 | starting from a clear state, the threads raise the flag exactly when one of them fails; otherwise the counter ends at `2 * ITERATIONS * num_cores` and every chunk is encrypted and restored; the values sent are `1, 2, ...` up to the counter |
| CpuCrypto.RunMulticore | app/src/main/cpp/cpu_crypto.cpp:96-213 | -1 on allocation failure, with no progress sent; -11 exactly when some thread fails; -10 only with zero threads; otherwise the counter ends at `ITERATIONS * num_cores * 2`, every chunk is encrypted, and the duration is returned; the progress sent is 0.0, then one value per finished pass (numerators `1, 2, ...` up to the final counter, each at most `total_progress_steps`), then 1.0 exactly when the duration is returned |
| CpuCrypto.KeepEarlierChunks | app/src/main/cpp/cpu_crypto.cpp:144-147 | a thread's run leaves the earlier threads' finished chunks as they were |
| CpuCrypto.AllChunksRestored | app/src/main/cpp/cpu_crypto.cpp:197 | once every thread has restored its chunk, the whole decrypted buffer equals the input |
| Ram.Constants | app/src/main/cpp/ram.cpp:36-37 | `progress_step` is `buffer_size / 100` |
| Ram.FillAndReport | app/src/main/cpp/ram.cpp:41-49 | after the write loop `buffer[i] == i & 0xFF` for every index, and progress was sent exactly at the multiples of `progress_step`, in order |
| Ram.RunRamWrite | app/src/main/cpp/ram.cpp:22-59 | -1 with no progress when allocation fails; otherwise the buffer holds the pattern, progress went out at every multiple of `progress_step` and then 1.0, and the duration is returned |
| Ram.Fill | app/src/main/cpp/ram.cpp:75-77 | the read benchmark's fill leaves the counting pattern in the buffer |
| Ram.SumAndReport | app/src/main/cpp/ram.cpp:87-96 | the `char` sum is the buffer's byte sum modulo 256, with progress at every multiple of `progress_step` |
| Ram.RunRamRead | app/src/main/cpp/ram.cpp:61-107 | -1 with no progress when allocation fails; otherwise the sum is the pattern's byte sum modulo 256, which is 0, the progress schedule ends with 1.0, and the duration is returned |
| Ram.RamReadSum | app/src/main/cpp/ram.cpp:87-89 | the 768 MiB pattern sums to 0 modulo 256 |
| Ram.ProgressUpdates | app/src/main/cpp/ram.cpp:45-48 | each loop sends 101 progress updates before the final 1.0 |
| RomSeq.Constants | app/src/main/cpp/rom_seq.cpp:41-43 | `iterations = file_size / block_size = 125` blocks fill the file exactly, and `progress_step` is `iterations / 100` |
| RomSeq.BlockStart | app/src/main/cpp/rom_seq.cpp:79-84 | every block of the loop lies inside the 500 MiB file, and the last one ends at its end |
| RomSeq.CreateTestFile | app/src/main/cpp/rom_seq.cpp:18-35 | succeeds exactly when the open and every 64 KiB chunk write succeed; the file then holds `size` bytes of the counting pattern; after a failure it holds a prefix of it |
| RomSeq.FillPattern | app/src/main/cpp/rom_seq.cpp:27-28 | the chunk buffer holds `(i + j) & 0xFF` at every `j` below the chunk length |
| RomSeq.AfterWrites | app/src/main/cpp/rom_seq.cpp:78-85 | the file stays 500 MiB long through the sequential writes |
| RomSeq.WritesInOrder | app/src/main/cpp/rom_seq.cpp:78-85 | after `n` writes the file is the first `n` random blocks, in order, followed by the remaining zero bytes |
| RomSeq.WriteIteration | app/src/main/cpp/rom_seq.cpp:79-87 | an iteration's write either fails and leaves the file, or adds that iteration's block |
| RomSeq.WriteBlocks | app/src/main/cpp/rom_seq.cpp:78-93 | the loop stops at the first failing write, having written every earlier block and reported progress at each `i > 0` that is a multiple of `progress_step` |
| RomSeq.RunSequentialWrite | app/src/main/cpp/rom_seq.cpp:37-102 | -1 without progress when pre-allocation or the open fails; -1 with the partial file after a failing write; otherwise the file holds all 125 random blocks, progress ends with 1.0, and the duration is returned; the file is removed whenever it was created |
| RomSeq.ReadAndSum | app/src/main/cpp/rom_seq.cpp:155-168 | reading block `i` and adding its bytes extends the checksum to the first `i + 1` blocks, modulo 2^64 |
| RomSeq.ReadBlocks | app/src/main/cpp/rom_seq.cpp:155-177 | the loop stops at the first failing read, with the checksum of every block read before it and the progress schedule up to there |
| RomSeq.RunSequentialRead | app/src/main/cpp/rom_seq.cpp:104-195 | -1 without progress when creating or opening the file or allocating the buffer fails; once those succeed, a run whose every read succeeds returns the duration, sends progress at each multiple of the step and then 1.0, and its checksum is the pattern's byte sum modulo 2^64; a read failure returns -1 after the progress sent for the blocks read before it; the file is removed whenever it was created |
| RomSeq.SequentialReadChecksum | app/src/main/cpp/rom_seq.cpp:183-185 | a complete read's checksum is 66846720000, never 0, so the zero-checksum warning cannot fire |
| RomRandom.Constants | app/src/main/cpp/rom_random.cpp:45-47 | 128000 blocks of 4 KiB fill the 500 MiB file exactly, and `progress_step` is 1280 |
| RomRandom.Offset | app/src/main/cpp/rom_random.cpp:95 | a drawn offset is a multiple of 4 KiB whose block lies inside the file |
| RomRandom.SlotsDisjoint | app/src/main/cpp/rom_random.cpp:95 | blocks at different offsets do not overlap |
| RomRandom.RandomFile | app/src/main/cpp/rom_random.cpp:31-33 | byte `p` of the test file is the value drawn for position `p` |
| RomRandom.CreateRandomTestFile | app/src/main/cpp/rom_random.cpp:18-39 | succeeds exactly when the open and every 64 KiB chunk write succeed; the file then holds the `size` drawn bytes; after a failure it holds a prefix of them |
| RomRandom.FillDrawn | app/src/main/cpp/rom_random.cpp:31-33 | the chunk buffer holds the bytes drawn for its positions |
| RomRandom.AfterRandomWrites | app/src/main/cpp/rom_random.cpp:93-107 | the random writes keep the file 500 MiB long |
| RomRandom.LastWriteTo | app/src/main/cpp/rom_random.cpp:95 | the latest write that went to a slot, or none |
| RomRandom.LastWriteWins | app/src/main/cpp/rom_random.cpp:95-102 | each block of the file holds the bytes of the last write to its slot, or zeros if none went there |
| RomRandom.WriteIteration | app/src/main/cpp/rom_random.cpp:95-107 | an iteration's `pwrite` either fails and leaves the file, or writes that iteration's block at its offset |
| RomRandom.WriteBlocks | app/src/main/cpp/rom_random.cpp:93-113 | the loop stops at the first failing `pwrite`, with every earlier block written and progress at each `i > 0` that is a multiple of 1280 |
| RomRandom.RunRandomWrite | app/src/main/cpp/rom_random.cpp:41-127 | -1 without progress when pre-allocation or the open fails; -1 after a failing `pwrite`; otherwise every write done, progress ends with 1.0, and the duration is returned; the file is removed whenever it was created |
| RomRandom.PickedSumBound | app/src/main/cpp/rom_random.cpp:193-195 | each block read adds at most `255 * block_size` to the checksum |
| RomRandom.NoWrapAfterFullRun | app/src/main/cpp/rom_random.cpp:193-195 | the 64-bit checksum of at most 128000 blocks never wraps |
| RomRandom.ReadBlocks | app/src/main/cpp/rom_random.cpp:182-201 | the loop stops at the first failing `pread`, with the checksum of the blocks read and the progress schedule up to there |
| RomRandom.ReadBlock | app/src/main/cpp/rom_random.cpp:183-195 | reading block `i` at its offset and adding its bytes extends the checksum by that block |
| RomRandom.RunRandomRead | app/src/main/cpp/rom_random.cpp:129-214 | -1 without progress when creating or opening the file fails; once those succeed, a run whose every `pread` succeeds returns the duration, sends progress at each multiple of the step and then 1.0, and its checksum is the sum of the blocks read from the drawn file; a read failure returns -1 after the progress sent for the blocks read before it; the file is removed whenever it was created |
| VulkanCompute.FindMemoryType | app/src/main/cpp/vulkan_compute.cpp:50-56 | the first memory type allowed by the mask with every requested property, or `UINT32_MAX` exactly when there is none |
| VulkanCompute.CreateBuffer | app/src/main/cpp/vulkan_compute.cpp:58-70 | succeeds exactly when creation, allocation and binding succeed and a suitable memory type exists |
| VulkanCompute.ComputeQueueFamily | app/src/main/cpp/vulkan_compute.cpp:88-89 | the first queue family with the compute bit, or `UINT32_MAX` exactly when none has it |
| VulkanCompute.InitShared | app/src/main/cpp/vulkan_compute.cpp:72-98 | succeeds exactly when the instance, a device, a compute family and the logical device are there; it picks device 0 and the first compute family |
| VulkanCompute.VulkanGlobals.constructor | app/src/main/cpp/vulkan_compute.cpp:43 | no shared context before the first benchmark |
| VulkanCompute.VulkanGlobals.GetSharedContext | app/src/main/cpp/vulkan_compute.cpp:110-117 | an existing context is returned unchanged; otherwise a successful initialisation is stored and returned, and a failed one leaves the global empty |
| VulkanCompute.VulkanGlobals.Cleanup | app/src/main/cpp/vulkan_compute.cpp:372-382 | the shared context is destroyed and the global emptied |
| VulkanCompute.VulkanGlobals.RunGemmBenchmark | app/src/main/cpp/vulkan_compute.cpp:384-407 | -1 with no progress without a context or when setup fails; an existing shared context is kept, and a new one is device 0 with the first compute family; otherwise the batches dispatched are a prefix of the tiling, complete exactly when the duration is returned, and with the callbacks present the progress numerators are 1, 2, … up to the batches done |
| VulkanCompute.WorkgroupCount | app/src/main/cpp/vulkan_compute.cpp:396-397 | `(dim + 15) / 16` is the fewest 16-wide workgroups covering `dim` |
| VulkanCompute.GemmGrid | app/src/main/cpp/vulkan_compute.cpp:394-397 | the benchmark's 8192-wide matrices need 512 workgroups per axis |
| VulkanCompute.RowLength | app/src/main/cpp/vulkan_compute.cpp:214 | a row from column `x0` has `ceil((countX - x0) / 32)` batches |
| VulkanCompute.RowShape | app/src/main/cpp/vulkan_compute.cpp:213-216 | batch `k` of a row has base `x0 + 32k` and the row's `by`, on the 32-grid inside the grid |
| VulkanCompute.RowsAligned | app/src/main/cpp/vulkan_compute.cpp:213-216 | every batch lies on the 32-grid inside the grid |
| VulkanCompute.RowsOrdered | app/src/main/cpp/vulkan_compute.cpp:213-214 | the batches come in row-major order, each strictly after the one before |
| VulkanCompute.DispatchSizes | app/src/main/cpp/vulkan_compute.cpp:215-216 | every dispatch has between 1 and 32 workgroups along each axis |
| VulkanCompute.TilingCovers | app/src/main/cpp/vulkan_compute.cpp:213-229 | a workgroup is dispatched by some batch exactly when it lies inside the grid |
| VulkanCompute.TilingDisjoint | app/src/main/cpp/vulkan_compute.cpp:213-229 | no workgroup is dispatched by two batches |
| VulkanCompute.RowsCount | app/src/main/cpp/vulkan_compute.cpp:210 | the loops yield `ceil(countX / 32) * ceil(countY / 32)` batches |
| VulkanCompute.GemmBatches | app/src/main/cpp/vulkan_compute.cpp:210 | the benchmark dispatches 256 batches |
| VulkanCompute.CountBatches | app/src/main/cpp/vulkan_compute.cpp:209-210 | the counting loop's `totalBatches` equals the number of batches the dispatch loop runs, so the last progress value is 1 |
| VulkanCompute.RunGemmCompute | app/src/main/cpp/vulkan_compute.cpp:198-270 | -1 when the command buffer or fence cannot be made; otherwise the batches dispatched are the tiling up to the first failure, progress counts them, and the duration is returned exactly when all succeed; fence and command buffer are freed |
| VulkanCompute.DispatchBatches | app/src/main/cpp/vulkan_compute.cpp:213-254 | the dispatch loop runs the tiling in order up to the first failing batch, reporting progress after each |
| VulkanCompute.DispatchRow | app/src/main/cpp/vulkan_compute.cpp:214-253 | one row of the dispatch loop continues the tiling, or stops at the first failing batch |
| VulkanCompute.DispatchBatch | app/src/main/cpp/vulkan_compute.cpp:215-252 | one batch is dispatched with its base and size and counted, or its failure ends the loop |
| DeviceUtils.FirstUnreadable | app/src/main/cpp/utils.cpp:24-27 | probing stops at the first unreadable cpu; every cpu before it is readable |
| DeviceUtils.Freqs | app/src/main/cpp/utils.cpp:47-54 | the readings are indexed by core id over the readable prefix `0..n-1` |
| DeviceUtils.GetBiggestCore | app/src/main/cpp/utils.cpp:21-36 | 0 when every reading is below 0 or there is no core; otherwise the first core with the maximal reading (a tie keeps the earlier core) |
| DeviceUtils.TrackedMinIsMin | app/src/main/cpp/utils.cpp:56-58 | on nonnegative readings `min_max_freq` is the smallest reading, and -1 only with no cores |
| DeviceUtils.GetPerformanceCores | app/src/main/cpp/utils.cpp:38-73 | in ascending id order, the cores strictly above the tracked minimum, or all cores when none is above it; empty exactly when no core was readable |
| DeviceUtils.ProbeCores | app/src/main/cpp/utils.cpp:47-59 | the probe loop collects the readable prefix's ids and readings and the tracked minimum |
| DeviceUtils.PerformanceCoresOnRealReadings | app/src/main/cpp/utils.cpp:61-70 | on nonnegative readings some core is above the minimum exactly when the readings differ, and a core is then chosen exactly when some reading is below its own |
| DeviceUtils.HasVulkanRt | app/src/main/cpp/utils.cpp:106-169 | true exactly when the instance is created and some device's successfully enumerated, non-empty extension list holds `VK_KHR_ray_query` |
| DeviceUtils.Contains | app/src/main/cpp/utils.cpp:155-160 | the `strcmp` loop finds the target exactly when it is in the list |
| DeviceUtils.UpdateProgress | app/src/main/cpp/utils.cpp:82-86 | the callback receives the value, once, exactly when env, activity and method are all present |
| BenchScreen.Index | app/src/main/java/com/komarudude/materialbench/ui/BenchActivity.kt:151-173 | every step id has a place in the step list |
| BenchScreen.StepsDistinct | app/src/main/java/com/komarudude/materialbench/ui/BenchActivity.kt:151-173 | no step id appears twice |
| BenchScreen.NativeScore | app/src/main/java/com/komarudude/materialbench/ui/BenchActivity.kt:535-549 | an exception or a negative time scores 0, a zero time `Int.MAX_VALUE`, a positive one at most `scale` |
| BenchScreen.NativeScoreQuotient | app/src/main/java/com/komarudude/materialbench/ui/BenchActivity.kt:544 | a positive time `t` scores the largest `s` with `s * t <= scale` |
| BenchScreen.NativeScoreMonotone | app/src/main/java/com/komarudude/materialbench/ui/BenchActivity.kt:544 | a slower run never scores higher |
| BenchScreen.StepScore | app/src/main/java/com/komarudude/materialbench/ui/BenchActivity.kt:237-341 | 1 when an exception escapes; native steps score their timing; GPU GEMM 0 without Vulkan compute; ray tracing `10 * frames` in `Int` when supported, else 0; the AI step its LiteRT score |
| BenchScreen.IntSumIsWrappedSum | app/src/main/java/com/komarudude/materialbench/ui/BenchActivity.kt:198 | summing `Int`s wraps to the wrap of the exact sum |
| BenchScreen.CategoriesPartition | app/src/main/java/com/komarudude/materialbench/ui/BenchActivity.kt:196-199 | the four categories split the recorded scores: their exact sums add up to the total |
| BenchScreen.CategoryScoreIsWrapped | app/src/main/java/com/komarudude/materialbench/ui/BenchActivity.kt:196-199 | a category's score is the `Int` wrap of the exact sum of its recorded scores; unrecorded steps contribute nothing |
| BenchScreen.OverallOfWrapped | app/src/main/java/com/komarudude/materialbench/ui/BenchActivity.kt:357 | adding four wrapped values in `Int` wraps their exact sum |
| BenchScreen.OverallIsWrappedTotal | app/src/main/java/com/komarudude/materialbench/ui/BenchActivity.kt:353-357 | the overall score is the `Int` wrap of the sum of all recorded scores, and equals it when that fits in an `Int` |
| BenchScreen.ZeroDurationWrapsCpuScore | app/src/main/java/com/komarudude/materialbench/ui/BenchActivity.kt:196-199 | a 0 ms first CPU step scores `Int.MAX_VALUE`, so any positive second CPU score wraps the CPU category negative |
| BenchScreen.Percent | app/src/main/java/com/komarudude/materialbench/ui/BenchActivity.kt:213 | `(frac.coerceIn(0, 1) * 100).toInt()`: 0 at or below 0, 100 at or above 1, and in between the truncation of `frac * 100` |
| BenchScreen.RatioAtLeastOne | app/src/main/java/com/komarudude/materialbench/ui/BenchActivity.kt:212 | a completed count plus a nonnegative in-progress share over the count is at least 1 |
| BenchScreen.CategoryPercent | app/src/main/java/com/komarudude/materialbench/ui/BenchActivity.kt:203-216 | 0 for a category without steps, always in `[0, 100]`, and 100 once all its steps are recorded |
| BenchScreen.Progress | app/src/main/java/com/komarudude/materialbench/ui/BenchActivity.kt:185-189 | 0 before the first step; within `[0, 1]` during a step |
| BenchScreen.ScoresAfterKeys | app/src/main/java/com/komarudude/materialbench/ui/BenchActivity.kt:230-343 | after `n` steps the score map holds exactly the old keys and those steps |
| BenchScreen.ScoresAfterOwn | app/src/main/java/com/komarudude/materialbench/ui/BenchActivity.kt:343 | after `n` steps each of them holds its own score |
| BenchScreen.ScoresAfterOthers | app/src/main/java/com/komarudude/materialbench/ui/BenchActivity.kt:343 | later steps' entries are untouched |
| BenchScreen.BenchRun.constructor | app/src/main/java/com/komarudude/materialbench/ui/BenchActivity.kt:180-192 | no step scores, no current step, progress 0, not finished; the stored scores are kept |
| BenchScreen.BenchRun.RunSteps | app/src/main/java/com/komarudude/materialbench/ui/BenchActivity.kt:219-366 | every step id ends with its own score; the category and overall scores are computed from the map and saved under their keys; the run is marked finished |
| BenchScreen.BenchRun.RecordSteps | app/src/main/java/com/komarudude/materialbench/ui/BenchActivity.kt:230-351 | the loop records and saves each step's score in order |
| BenchScreen.BenchRun.RecordStep | app/src/main/java/com/komarudude/materialbench/ui/BenchActivity.kt:231-347 | step `i` becomes current, and its score is recorded and saved under its id |
| BenchScreen.BenchRun.SaveTotals | app/src/main/java/com/komarudude/materialbench/ui/BenchActivity.kt:353-364 | the category sums and their `Int` total are saved under "CPU Benchmark", "GPU Benchmark", "Memory Test", "AI Test" and "overall_score" |
| StressScreen.HalveLength | app/src/main/java/com/komarudude/materialbench/ui/MainActivity.kt:231-240 | a compression pass maps `n` points to `ceil(n / 2)` |
| StressScreen.HalveAt | app/src/main/java/com/komarudude/materialbench/ui/MainActivity.kt:232-234 | point `k` of a pass is the mean of points `2k` and `2k + 1` |
| StressScreen.HalveLast | app/src/main/java/com/komarudude/materialbench/ui/MainActivity.kt:235-238 | the last point of an odd list is carried over unchanged |
| StressScreen.HalveWithin | app/src/main/java/com/komarudude/materialbench/ui/MainActivity.kt:231-240 | a pass keeps every point within the range of the readings |
| StressScreen.Compress | app/src/main/java/com/komarudude/materialbench/ui/MainActivity.kt:227-245 | at most 240 points remain; a list within the limit is left unchanged; a longer one keeps more than 120 |
| StressScreen.CompressWithin | app/src/main/java/com/komarudude/materialbench/ui/MainActivity.kt:227-245 | compression keeps every point within the range of the readings |
| StressScreen.OnePointOver | app/src/main/java/com/komarudude/materialbench/ui/MainActivity.kt:228-243 | 241 points take one pass, to 121 points, doubling the interval once |
| StressScreen.PairMeans | app/src/main/java/com/komarudude/materialbench/ui/MainActivity.kt:229-240 | the inner loop builds exactly one compression pass |
| StressScreen.TotalSeconds | app/src/main/java/com/komarudude/materialbench/ui/MainActivity.kt:250 | `toLong().coerceAtLeast(0)`: negative values give 0, others truncate toward zero, saturating at `Long.MAX_VALUE` |
| StressScreen.LabelOf | app/src/main/java/com/komarudude/materialbench/ui/MainActivity.kt:252-264 | hours and minutes from 3600 s up; minutes alone from 60 s when the seconds are 0, minutes and seconds otherwise; seconds below 60; each part consistent with the total |
| StressScreen.DecimalRoundTrip | app/src/main/java/com/komarudude/materialbench/ui/MainActivity.kt:256 | the decimal rendering of a count is a nonempty digit string that reads back as the count |
| StressScreen.RenderParse | app/src/main/java/com/komarudude/materialbench/ui/MainActivity.kt:252-264 | every label text reads back as the parts it was rendered from, so different labels never print alike |
| StressScreen.Readings | app/src/main/java/com/komarudude/materialbench/ui/MainActivity.kt:275 | a missing battery reading counts as 0 |
| StressScreen.FirstTrigger | app/src/main/java/com/komarudude/materialbench/ui/MainActivity.kt:286-304 | the first reading that trips a threshold, or the number of readings when none does |
| StressScreen.FirstTriggerIs | app/src/main/java/com/komarudude/materialbench/ui/MainActivity.kt:286-304 | a tripping reading with none before it is the first trigger |
| StressScreen.Chart | app/src/main/java/com/komarudude/materialbench/ui/MainActivity.kt:273-278 | the chart after appending and compressing one reading per second holds at most 240 points |
| StressScreen.ChartSnoc | app/src/main/java/com/komarudude/materialbench/ui/MainActivity.kt:275-278 | one more second appends the reading, compresses, and multiplies the interval accordingly |
| StressScreen.ChartWithin | app/src/main/java/com/komarudude/materialbench/ui/MainActivity.kt:273-278 | every chart point lies within the range of the readings taken |
| StressScreen.ChartSize | app/src/main/java/com/komarudude/materialbench/ui/MainActivity.kt:273-278 | up to 240 seconds the chart is the readings themselves; after that it keeps more than 120 points |
| StressScreen.StressState.constructor | app/src/main/java/com/komarudude/materialbench/ui/MainActivity.kt:206-224 | CPU stress selected, no readings, one second per point, no dialog shown |
| StressScreen.StressState.CompressIfNeeded | app/src/main/java/com/komarudude/materialbench/ui/MainActivity.kt:227-245 | the list is compressed and the interval doubled once per pass; nothing else changes |
| StressScreen.StressState.Sample | app/src/main/java/com/komarudude/materialbench/ui/MainActivity.kt:274-304 | one second appends the reading (0 when absent) and compresses; a reading at or above 45 or at or below 17, with its dialog not yet shown, stops stress, shows that dialog and records the reading; the selection is kept |
| StressScreen.StressState.RunSampling | app/src/main/java/com/komarudude/materialbench/ui/MainActivity.kt:267-305 | a running session restarts the chart and samples until the first reading that trips a dialog or the end of the readings: the chart and interval are those of the readings consumed, and stress is still running exactly when nothing tripped; a stopped session changes nothing |
| StressScreen.StressState.SampleStep | app/src/main/java/com/komarudude/materialbench/ui/MainActivity.kt:273-304 | one loop pass extends the sampled state by one reading |
| StressScreen.StressState.Toggle | app/src/main/java/com/komarudude/materialbench/ui/MainActivity.kt:326-335 | a click adds an unselected mode and removes a selected one unless it is the only one, so the selection is never empty; the GPU mode is disabled without Vulkan compute |
| StressScreen.StressState.PressStressButton | app/src/main/java/com/komarudude/materialbench/ui/MainActivity.kt:354-372 | the button flips the running flag, starting the selected stresses or stopping both |
| BitmapUtils.RgbOfSnoc | app/src/main/java/com/komarudude/materialbench/utils/BitmapUtils.kt:43-48 | repacking one more pixel appends its last three bytes |
| BitmapUtils.RgbOfPixels | app/src/main/java/com/komarudude/materialbench/utils/BitmapUtils.kt:41-48 | the output has three bytes per pixel, and pixel `p`'s bytes are bytes 1..3 of its group of four |
| BitmapUtils.Repack | app/src/main/java/com/komarudude/materialbench/utils/BitmapUtils.kt:41-48 | the loop fills a fresh array with the repacking of the buffer |
| BitmapUtils.CopyPixel | app/src/main/java/com/komarudude/materialbench/utils/BitmapUtils.kt:44-47 | one turn skips a byte and appends the next three |
| BitmapUtils.LoadAndPrepareImage | app/src/main/java/com/komarudude/materialbench/utils/BitmapUtils.kt:19-52 | null on a decode exception, a null bitmap or a size other than 384x384; otherwise the pixels, zero-padded to `numPixels * 4` bytes, repacked to three bytes per pixel |
| BitmapUtils.PreparedImage | app/src/main/java/com/komarudude/materialbench/utils/BitmapUtils.kt:36-48 | a full 384x384 image gives `numPixels * 3` bytes, pixel `p`'s being the last three of its four |
| IntegrityChecker.Unsigned | app/src/main/java/com/komarudude/materialbench/utils/IntegrityChecker.kt:46 | `%02x` formats a negative byte as its value plus 256 |
| IntegrityChecker.Signed | app/src/main/java/com/komarudude/materialbench/utils/IntegrityChecker.kt:46 | every unsigned byte value comes from one Kotlin `Byte` |
| IntegrityChecker.HexDigit | app/src/main/java/com/komarudude/materialbench/utils/IntegrityChecker.kt:46 | the lowercase hex digit of a nibble |
| IntegrityChecker.HexValue | app/src/main/java/com/komarudude/materialbench/utils/IntegrityChecker.kt:46 | reading a hex digit back gives the nibble it encodes |
| IntegrityChecker.HexShape | app/src/main/java/com/komarudude/materialbench/utils/IntegrityChecker.kt:43-47 | the hex string has two lowercase hex digits per byte, high nibble first, at positions `2i` and `2i + 1` |
| IntegrityChecker.UnhexHex | app/src/main/java/com/komarudude/materialbench/utils/IntegrityChecker.kt:43-47 | the digest can be read back from its hex string |
| IntegrityChecker.HexInjective | app/src/main/java/com/komarudude/materialbench/utils/IntegrityChecker.kt:43-47 | two digests have the same hex string exactly when they are equal |
| IntegrityChecker.AnyMatches | app/src/main/java/com/komarudude/materialbench/utils/IntegrityChecker.kt:27-29 | true exactly when some certificate's hex digest equals the expected hash |
| IntegrityChecker.Signers | app/src/main/java/com/komarudude/materialbench/utils/IntegrityChecker.kt:21-25 | the current signers when there are several, otherwise the rotation history |
| IntegrityChecker.IsCompanionTrustworthy | app/src/main/java/com/komarudude/materialbench/utils/IntegrityChecker.kt:13-41 | trusted exactly when the companion is installed, its signer list for the API level is present, and some signer's hex digest equals the expected hash; every failure answers false |
| IntegrityChecker.TrustedIffSameDigest | app/src/main/java/com/komarudude/materialbench/utils/IntegrityChecker.kt:27-35 | against the hex of a digest, a signer list matches exactly when some signer has that digest |

## Left out

- Arithmetic of the maths workload (`heavy_math`, cpu_math.cpp:20-40): its floating-point result is never returned, so only the split into tasks, the claiming, the counting and the progress are modelled.
- CpuMath.RunMulticore: the workers run as sequential turns chosen by a schedule parameter, not as true interleavings; each turn is one atomic operation (a claim, an add, or a progress call), so other workers may add between a worker's add and its progress call. Memory order is not modelled. The worker threads are taken to attach to the JVM and find `updateBenchmarkProgress`, so every add is followed by a progress call (cpu_math.cpp:159). The 50 ms reporter thread belongs to the single-core run (cpu_math.cpp:58-84) and is modelled by `SingleCoreReporter` over the counter values it observes.
- CpuCrypto.RunMulticore: the threads run one after another, so each progress value a thread sends is the counter right after its own increment; with true interleavings a `load()` may already see other threads' increments, so the values sent need not be `1, 2, ...` in order. Thread `t` attaching to the JVM is a flag. Because the keystream is abstract, the model does not claim that the per-thread ciphertext equals the single-core ciphertext; it proves that each chunk is encrypted under its thread's IV and decrypted back.
- AES-256-CTR itself is the abstract `Keystream` XOR; only its round-trip property is used.
- Floating-point progress values (`i / buffer_size`, `done / total_iterations`) are recorded as integer numerators over a known denominator; temperatures, means and the chart interval are `real`, without `Float` rounding.
- CPU and GPU stress (cpu_math.cpp:188-216, vulkan_compute.cpp:290-370) are not part of this model: they are endless loops started and stopped from the stress screen, whose start/stop calls are modelled as outputs of `PressStressButton` and `Sample`.
- `pin_to_core`, `setpriority`, `mlock`, `get_files_dir_path`, JNI reference handling and logging have no effect on the results and are left out.
- Short reads and partial writes: a `read`/`write`/`pread`/`pwrite` either transfers the whole block or fails; a short count is not modelled.
- The null checks after the plain `new` of the 4 KiB block buffers in rom_random.cpp (76-82, 164-170) can never fire, since plain `new` throws instead of returning null, so they are not modelled. The large allocations of ram.cpp, cpu_crypto.cpp and rom_seq.cpp are modelled as flags.
- The 32-bit `uint32_t` loop counters of the GEMM dispatch are modelled as unbounded: for the grid sizes used (512 workgroups) they never wrap.
- RomRandom.RunRandomRead: the checksum is computed and modelled but the source discards it, so no property beyond its value is stated.
- `nativeRunRomMixedRandomBenchmark` is declared by the benchmark screen but its implementation is not part of this model; the random read and write benchmarks of rom_random.cpp are modelled on their own.
- Vulkan setup beyond what the results depend on (shader module, pipeline, descriptor sets, buffer sizes) is one `setupOk` flag; the GEMM numerics run on the GPU and are not modelled.
- The Compose UI, Toasts, the Vico chart, the network API, `BenchScores` persistence (modelled as a `map<string, int>`), the LiteRT benchmark (its score is an input) and the ray-tracing companion activity (its frame count is an input) are left out.
- BenchScreen.StepScore: an exception escaping a step is an input flag, and the progress callbacks during a step are not modelled; `currentStepProgress` is 1 after each step.
- BitmapUtils.LoadAndPrepareImage: the byte order `copyPixelsToBuffer` produces is the bitmap's own; the model keeps bytes 1..3 of each group of four as the loop does, whatever channels they are. `recycle()` is left out.
- SHA-256 is a function parameter; its collision resistance is not assumed, so the integrity check is proved equivalent to comparing digests.
- DeviceUtils.GetPerformanceCores: `min_max_freq` uses -1 as "no core yet" exactly as written, so a reading of -1 is indistinguishable from none; the contract states this through `TrackedMin`.
