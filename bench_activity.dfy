/** The benchmark screen of BenchActivity.kt: the fixed list of twelve steps in four
    categories, the mapping from a native benchmark's duration to a score, the step loop
    that records one score per step, the per-category sums and the overall score, all in
    Kotlin's 32-bit `Int`, which wraps on overflow, and the progress percentages.
    What the native calls, the ray-tracing activity and the LiteRT run return are inputs. */
module BenchScreen {
  import opened Common

  /** A Kotlin `Int`. */
  type Int32 = x: int | -0x8000_0000 <= x <= INT32_MAX
  /** A Kotlin `Long`. */
  type Int64 = x: int | -0x8000_0000_0000_0000 <= x <= 0x7FFF_FFFF_FFFF_FFFF

  datatype Category = CPU | GPU | MEM | AI

  /** The twelve step ids; `Name` gives the string the app stores each score under. */
  datatype StepId =
    | CpuMathSingle | CpuMathMulti | CpuCryptoSingle | CpuCryptoMulti
    | GpuGemm | GpuRt
    | RamSeqWrite | RamSeqRead | RomRandOps | RomSeqWrite | RomSeqRead
    | AiLiteRt

  function Name(id: StepId): string
  {
    match id
    case CpuMathSingle => "cpu_math_single"
    case CpuMathMulti => "cpu_math_multi"
    case CpuCryptoSingle => "cpu_crypto_single"
    case CpuCryptoMulti => "cpu_crypto_multi"
    case GpuGemm => "gpu_gemm"
    case GpuRt => "gpu_rt"
    case RamSeqWrite => "ram_seq_write"
    case RamSeqRead => "ram_seq_read"
    case RomRandOps => "rom_rand_ops"
    case RomSeqWrite => "rom_seq_write"
    case RomSeqRead => "rom_seq_read"
    case AiLiteRt => "ai_litert"
  }

  function CategoryOf(id: StepId): Category
  {
    match id
    case CpuMathSingle | CpuMathMulti | CpuCryptoSingle | CpuCryptoMulti => CPU
    case GpuGemm | GpuRt => GPU
    case RamSeqWrite | RamSeqRead | RomRandOps | RomSeqWrite | RomSeqRead => MEM
    case AiLiteRt => AI
  }

  /** The steps, in the order they run (BenchActivity.kt:151-173). */
  const STEPS: seq<StepId> := [
    CpuMathSingle, CpuMathMulti, CpuCryptoSingle, CpuCryptoMulti,
    GpuGemm, GpuRt,
    RamSeqWrite, RamSeqRead, RomRandOps, RomSeqWrite, RomSeqRead,
    AiLiteRt
  ]

  /** Where a step sits in the list: every id has exactly one place. */
  function Index(id: StepId): (k: nat)
    ensures k < |STEPS| && STEPS[k] == id
  {
    match id
    case CpuMathSingle => 0
    case CpuMathMulti => 1
    case CpuCryptoSingle => 2
    case CpuCryptoMulti => 3
    case GpuGemm => 4
    case GpuRt => 5
    case RamSeqWrite => 6
    case RamSeqRead => 7
    case RomRandOps => 8
    case RomSeqWrite => 9
    case RomSeqRead => 10
    case AiLiteRt => 11
  }

  /** No step runs twice, so each step owns its entry of the score map. */
  lemma StepsDistinct()
    ensures forall j, k :: 0 <= j < k < |STEPS| ==> STEPS[j] != STEPS[k]
  {
    forall j | 0 <= j < |STEPS|
      ensures Index(STEPS[j]) == j
    {
    }
  }

  // ---------------------------------------------------------------------------
  // runNativeBenchmark (BenchActivity.kt:536-549)

  /** `runNativeBenchmark`: `call` is None when the native call throws. A negative
      duration (the benchmarks' error codes) scores 0, a zero duration `Int.MAX_VALUE`,
      and a positive one `scale / t`, which never exceeds `scale`. */
  function NativeScore(call: Option<Int64>, scale: Int32): (score: Int32)
    requires scale > 0
    ensures call.None? ==> score == 0
    ensures call.Some? && call.value < 0 ==> score == 0
    ensures call.Some? && call.value == 0 ==> score == INT32_MAX
    ensures call.Some? && call.value > 0 ==> 0 <= score <= scale
  {
    match call
    case None => 0
    case Some(t) =>
      if t < 0 then 0
      else if t == 0 then INT32_MAX
      else Quotient(scale, t)
  }

  /** `scale / t` for a positive `t`. */
  function Quotient(scale: nat, t: nat): (q: nat)
    requires t > 0
    ensures q <= scale
  {
    DivBounds(scale, t);
    scale / t
  }

  /** `a / b` is the largest multiple count of `b` within `a`. */
  lemma DivBounds(a: nat, b: nat)
    requires b > 0
    ensures a / b <= a && (a / b) * b <= a < (a / b + 1) * b
  {
    var q, r := a / b, a % b;
    assert a == q * b + r && 0 <= r < b;
    assert (q + 1) * b == q * b + b;
    MulLe(1, b, q);
  }

  /** A positive duration `t` scores the largest value whose product with `t` does not
      exceed `scale`. */
  lemma NativeScoreQuotient(scale: Int32, t: Int64)
    requires scale > 0 && t > 0
    ensures var score := NativeScore(Some(t), scale);
      score * t <= scale < (score + 1) * t
  {
    DivBounds(scale, t);
  }

  /** A slower run never scores higher. */
  lemma NativeScoreMonotone(scale: Int32, t1: Int64, t2: Int64)
    requires scale > 0 && 0 < t1 <= t2
    ensures NativeScore(Some(t2), scale) <= NativeScore(Some(t1), scale)
  {
    var s1, s2 := NativeScore(Some(t1), scale), NativeScore(Some(t2), scale);
    NativeScoreQuotient(scale, t1);
    NativeScoreQuotient(scale, t2);
    if s2 > s1 {
      MulLe(s1 + 1, s2, t1);
      MulLe(t1, t2, s2);
    }
  }

  // ---------------------------------------------------------------------------
  // One step's score (BenchActivity.kt:228-345)

  /** What one step meets when it runs: whether an exception escapes the step's `when`,
      what its native call returns (None: it throws), the frames the ray-tracing activity
      reports, and the LiteRT score. */
  datatype StepInputs = StepInputs(escaped: bool, native: Option<Int64>, frames: Int32, liteRt: Int32)

  /** The steps that time a native benchmark, with the score constant each divides by. */
  predicate IsNative(id: StepId)
  {
    !(id.GpuGemm? || id.GpuRt? || id.AiLiteRt?)
  }

  function Scale(id: StepId): Int32
  {
    if CategoryOf(id) == MEM then 10_000_000 else 100_000_000
  }

  /** The score a step records: 1 when an exception escapes; otherwise the native score,
      `gpu_gemm` only with Vulkan compute, `gpu_rt` ten times the frames (in `Int`) only
      with ray tracing, and the LiteRT score. */
  function StepScore(id: StepId, inp: StepInputs, hasVulkanCompute: bool, rtSupported: bool): (score: Int32)
    ensures inp.escaped ==> score == 1
    ensures !inp.escaped && IsNative(id) ==> score == NativeScore(inp.native, Scale(id))
    ensures !inp.escaped && id == GpuGemm ==>
      score == (if hasVulkanCompute then NativeScore(inp.native, 100_000_000) else 0)
    ensures !inp.escaped && id == GpuRt ==> score == (if rtSupported then WrapI32(inp.frames * 10) else 0)
    ensures !inp.escaped && id == AiLiteRt ==> score == inp.liteRt
  {
    if inp.escaped then 1
    else
      match id
      case GpuGemm => if hasVulkanCompute then NativeScore(inp.native, 100_000_000) else 0
      case GpuRt => if rtSupported then WrapI32(inp.frames * 10) else 0
      case AiLiteRt => inp.liteRt
      case _ => NativeScore(inp.native, Scale(id))
  }

  // ---------------------------------------------------------------------------
  // Category sums and the overall score (BenchActivity.kt:194-201, 347-357)

  /** Kotlin's `List<Int>.sum()`: an `Int` accumulator, wrapping at every addition. */
  function IntSum(xs: seq<int>): Int32
  {
    if |xs| == 0 then 0 else WrapI32(IntSum(xs[..|xs| - 1]) + xs[|xs| - 1])
  }

  /** The exact sum. */
  function Sum(xs: seq<int>): int
  {
    if |xs| == 0 then 0 else Sum(xs[..|xs| - 1]) + xs[|xs| - 1]
  }

  /** Wrapping at every addition gives the wrap of the exact sum. */
  lemma {:induction false} IntSumIsWrappedSum(xs: seq<int>)
    requires forall k :: 0 <= k < |xs| ==> -0x8000_0000 <= xs[k] <= INT32_MAX
    ensures IntSum(xs) == WrapI32(Sum(xs))
  {
    if |xs| > 0 {
      var init, x := xs[..|xs| - 1], xs[|xs| - 1];
      IntSumIsWrappedSum(init);
      WrapI32Identity(IntSum(init));
      WrapI32Identity(x);
      WrapI32Add(Sum(init), x);
    } else {
      WrapI32Identity(0);
    }
  }

  /** `testSteps.filter { it.category == cat }.mapNotNull { stepScores[it.id] }`. */
  function CategoryValues(steps: seq<StepId>, scores: map<StepId, int>, cat: Category): seq<int>
  {
    if |steps| == 0 then []
    else
      var init, s := steps[..|steps| - 1], steps[|steps| - 1];
      CategoryValues(init, scores, cat) + (if CategoryOf(s) == cat && s in scores then [scores[s]] else [])
  }

  /** A category's score. */
  function CategoryScore(steps: seq<StepId>, scores: map<StepId, int>, cat: Category): Int32
  {
    IntSum(CategoryValues(steps, scores, cat))
  }

  /** Every recorded score of every step, in step order. */
  function RecordedValues(steps: seq<StepId>, scores: map<StepId, int>): seq<int>
  {
    if |steps| == 0 then []
    else
      var init, s := steps[..|steps| - 1], steps[|steps| - 1];
      RecordedValues(init, scores) + (if s in scores then [scores[s]] else [])
  }

  lemma {:induction false} SumAppend(xs: seq<int>, ys: seq<int>)
    ensures Sum(xs + ys) == Sum(xs) + Sum(ys)
    decreases |ys|
  {
    if |ys| > 0 {
      SumAppend(xs, ys[..|ys| - 1]);
      assert (xs + ys)[..|xs + ys| - 1] == xs + ys[..|ys| - 1];
    } else {
      assert xs + ys == xs;
    }
  }

  /** The four categories split the recorded scores: their exact sums add up to the sum
      of all recorded scores. */
  lemma {:induction false} CategoriesPartition(steps: seq<StepId>, scores: map<StepId, int>)
    ensures Sum(CategoryValues(steps, scores, CPU)) + Sum(CategoryValues(steps, scores, GPU)) +
            Sum(CategoryValues(steps, scores, MEM)) + Sum(CategoryValues(steps, scores, AI)) ==
            Sum(RecordedValues(steps, scores))
  {
    if |steps| > 0 {
      var init, s := steps[..|steps| - 1], steps[|steps| - 1];
      CategoriesPartition(init, scores);
      var extra := if s in scores then [scores[s]] else [];
      SumAppend(RecordedValues(init, scores), extra);
      SumAppend(CategoryValues(init, scores, CPU), if CategoryOf(s) == CPU then extra else []);
      SumAppend(CategoryValues(init, scores, GPU), if CategoryOf(s) == GPU then extra else []);
      SumAppend(CategoryValues(init, scores, MEM), if CategoryOf(s) == MEM then extra else []);
      SumAppend(CategoryValues(init, scores, AI), if CategoryOf(s) == AI then extra else []);
    }
  }

  /** Recorded scores are `Int`s, so every category list holds `Int`s. */
  lemma {:induction false} ValuesInRange(steps: seq<StepId>, scores: map<StepId, int>, cat: Category)
    requires forall id :: id in scores ==> -0x8000_0000 <= scores[id] <= INT32_MAX
    ensures forall k :: 0 <= k < |CategoryValues(steps, scores, cat)| ==>
      -0x8000_0000 <= CategoryValues(steps, scores, cat)[k] <= INT32_MAX
  {
    if |steps| > 0 {
      ValuesInRange(steps[..|steps| - 1], scores, cat);
    }
  }

  /** A category's `Int` score is the wrap of the exact sum of its recorded scores. */
  lemma CategoryScoreIsWrapped(steps: seq<StepId>, scores: map<StepId, int>, cat: Category)
    requires forall id :: id in scores ==> -0x8000_0000 <= scores[id] <= INT32_MAX
    ensures CategoryScore(steps, scores, cat) == WrapI32(Sum(CategoryValues(steps, scores, cat)))
  {
    ValuesInRange(steps, scores, cat);
    IntSumIsWrappedSum(CategoryValues(steps, scores, cat));
  }

  /** `cpuScore + gpuScore + memScore + aiScore` in `Int`. */
  function Overall(cpu: Int32, gpu: Int32, mem: Int32, ai: Int32): Int32
  {
    WrapI32(WrapI32(WrapI32(cpu + gpu) + mem) + ai)
  }

  /** Adding four wrapped values in `Int` wraps their exact sum. */
  lemma OverallOfWrapped(c: int, g: int, m: int, a: int)
    ensures Overall(WrapI32(c), WrapI32(g), WrapI32(m), WrapI32(a)) == WrapI32(c + g + m + a)
  {
    var cg, cgm := c + g, c + g + m;
    WrapI32Add(c, g);
    WrapI32Add(cg, m);
    WrapI32Add(cgm, a);
    assert WrapI32(WrapI32(c) + WrapI32(g)) == WrapI32(cg);
    assert WrapI32(WrapI32(cg) + WrapI32(m)) == WrapI32(cgm);
  }

  /** The overall score is the wrap of the exact sum of every recorded score, and it is
      that sum itself whenever that sum fits in an `Int`. */
  lemma OverallIsWrappedTotal(steps: seq<StepId>, scores: map<StepId, int>)
    requires forall id :: id in scores ==> -0x8000_0000 <= scores[id] <= INT32_MAX
    ensures var total := Sum(RecordedValues(steps, scores));
      var overall := Overall(CategoryScore(steps, scores, CPU), CategoryScore(steps, scores, GPU),
                             CategoryScore(steps, scores, MEM), CategoryScore(steps, scores, AI));
      overall == WrapI32(total) && (-0x8000_0000 <= total <= INT32_MAX ==> overall == total)
  {
    var c, g := Sum(CategoryValues(steps, scores, CPU)), Sum(CategoryValues(steps, scores, GPU));
    var m, a := Sum(CategoryValues(steps, scores, MEM)), Sum(CategoryValues(steps, scores, AI));
    CategoryScoreIsWrapped(steps, scores, CPU);
    CategoryScoreIsWrapped(steps, scores, GPU);
    CategoryScoreIsWrapped(steps, scores, MEM);
    CategoryScoreIsWrapped(steps, scores, AI);
    OverallOfWrapped(c, g, m, a);
    CategoriesPartition(steps, scores);
    var total := Sum(RecordedValues(steps, scores));
    assert c + g + m + a == total;
    if -0x8000_0000 <= total <= INT32_MAX {
      WrapI32Identity(total);
    }
  }

  /** A first CPU step that took 0 ms scores `Int.MAX_VALUE`, so any positive score on
      the second wraps the CPU total of the two to a negative value. */
  lemma ZeroDurationWrapsCpuScore(scores: map<StepId, int>, t: Int64)
    requires 0 < t <= 100_000_000
    requires CpuMathSingle in scores && scores[CpuMathSingle] == NativeScore(Some(0), 100_000_000)
    requires CpuMathMulti in scores && scores[CpuMathMulti] == NativeScore(Some(t), 100_000_000)
    ensures CategoryScore(STEPS[..2], scores, CPU) < 0
  {
    var s := scores[CpuMathMulti];
    NativeScoreQuotient(100_000_000, t);
    assert 1 <= s <= 100_000_000;
    CpuPairValues(scores);
    IntSumOverflow(s);
  }

  /** The CPU values of the first two steps are their two scores. */
  lemma CpuPairValues(scores: map<StepId, int>)
    requires CpuMathSingle in scores && CpuMathMulti in scores
    ensures CategoryValues(STEPS[..2], scores, CPU) == [scores[CpuMathSingle], scores[CpuMathMulti]]
  {
    var p := STEPS[..2];
    assert p[..1] == [CpuMathSingle];
    assert CategoryValues(p[..1], scores, CPU) == [scores[CpuMathSingle]];
  }

  /** `Int.MAX_VALUE + s` wraps below zero for a positive `s`. */
  lemma IntSumOverflow(s: int)
    requires 1 <= s <= 100_000_000
    ensures IntSum([INT32_MAX, s]) == INT32_MAX + s - TWO_POW_32
  {
    var v := [INT32_MAX, s];
    assert v[..1] == [INT32_MAX];
    WrapI32Identity(INT32_MAX);
    assert IntSum(v[..1]) == INT32_MAX;
    assert (INT32_MAX + s) % TWO_POW_32 == INT32_MAX + s;
  }

  // ---------------------------------------------------------------------------
  // Progress (BenchActivity.kt:184-189, 203-216)

  /** `(frac.coerceIn(0f, 1f) * 100).toInt()`: a percent in `[0, 100]`, truncated. */
  function Percent(frac: real): (p: int)
    ensures 0 <= p <= 100
    ensures frac <= 0.0 ==> p == 0
    ensures frac >= 1.0 ==> p == 100
    ensures 0.0 <= frac <= 1.0 ==> p as real <= frac * 100.0 < p as real + 1.0
  {
    var c := if frac < 0.0 then 0.0 else if frac > 1.0 then 1.0 else frac;
    (c * 100.0).Floor
  }

  /** The number of steps of `cat`, and of those whose score is recorded. */
  function CountIn(steps: seq<StepId>, cat: Category): (n: nat)
    ensures n <= |steps|
  {
    if |steps| == 0 then 0
    else CountIn(steps[..|steps| - 1], cat) + (if CategoryOf(steps[|steps| - 1]) == cat then 1 else 0)
  }

  function CompletedIn(steps: seq<StepId>, scores: map<StepId, int>, cat: Category): (n: nat)
    ensures n <= CountIn(steps, cat)
  {
    if |steps| == 0 then 0
    else
      var s := steps[|steps| - 1];
      CompletedIn(steps[..|steps| - 1], scores, cat) + (if CategoryOf(s) == cat && s in scores then 1 else 0)
  }

  lemma RatioAtLeastOne(t: real, p: real)
    requires t > 0.0 && p >= 0.0
    ensures (t + p) / t >= 1.0
  {
    var q := (t + p) / t;
    assert q * t == t + p;
    if q < 1.0 {
    }
  }

  /** `categoryProgressPercent` for one category: 0 for a category with no steps;
      otherwise the recorded steps plus the running step's progress, over the category's
      step count, as a clamped percent. A category whose steps are all recorded shows
      100 unless the running step's progress is negative. */
  function CategoryPercent(steps: seq<StepId>, scores: map<StepId, int>, cat: Category,
                           currentStepIndex: int, currentStepProgress: real): (p: int)
    ensures 0 <= p <= 100
    ensures CountIn(steps, cat) == 0 ==> p == 0
    ensures CountIn(steps, cat) > 0 && CompletedIn(steps, scores, cat) == CountIn(steps, cat) &&
            currentStepProgress >= 0.0
      ==> p == 100
  {
    var total := CountIn(steps, cat);
    if total == 0 then 0
    else
      var completed := CompletedIn(steps, scores, cat);
      var inProgress :=
        if 0 <= currentStepIndex < |steps| && CategoryOf(steps[currentStepIndex]) == cat
        then currentStepProgress else 0.0;
      var frac := (completed as real + inProgress) / (total as real);
      assert completed == total && currentStepProgress >= 0.0 ==> frac >= 1.0 by {
        if completed == total && currentStepProgress >= 0.0 {
          RatioAtLeastOne(total as real, inProgress);
        }
      }
      Percent(frac)
  }

  /** The overall progress bar: 0 before the first step (and after the last, where the
      index is -2), else the finished steps plus the running step's progress over the
      step count; within `[0, 1]` while a step runs with its progress in `[0, 1]`. */
  function Progress(currentStepIndex: int, currentStepProgress: real): (r: real)
    ensures currentStepIndex < 0 ==> r == 0.0
    ensures 0 <= currentStepIndex < |STEPS| && 0.0 <= currentStepProgress <= 1.0 ==> 0.0 <= r <= 1.0
  {
    if currentStepIndex < 0 then 0.0
    else (currentStepIndex as real + currentStepProgress) / (|STEPS| as real)
  }

  // ---------------------------------------------------------------------------
  // The step loop (BenchActivity.kt:225-366)

  /** The map after the first `n` steps have recorded their scores, each under `key` of
      its id (the step id itself in `stepScores`, its name in the saved scores). */
  function ScoresAfter<K>(key: StepId -> K, inputs: seq<StepInputs>, hasVulkanCompute: bool,
                          rtSupported: bool, scores: map<K, int>, n: nat): map<K, int>
    requires n <= |inputs| && n <= |STEPS|
  {
    if n == 0 then scores
    else
      ScoresAfter(key, inputs, hasVulkanCompute, rtSupported, scores, n - 1)
        [key(STEPS[n - 1]) := StepScore(STEPS[n - 1], inputs[n - 1], hasVulkanCompute, rtSupported)]
  }

  /** After the first `n` steps the map holds exactly the old keys and those steps. */
  lemma {:induction false} ScoresAfterKeys(inputs: seq<StepInputs>, hasVulkanCompute: bool, rtSupported: bool,
                                           scores: map<StepId, int>, n: nat)
    requires n <= |inputs| && n <= |STEPS|
    ensures forall id :: id in ScoresAfter(id => id, inputs, hasVulkanCompute, rtSupported, scores, n) <==>
      id in scores || Index(id) < n
  {
    if n > 0 {
      ScoresAfterKeys(inputs, hasVulkanCompute, rtSupported, scores, n - 1);
      assert Index(STEPS[n - 1]) == n - 1;
    }
  }

  /** After the first `n` steps each of them holds its own score. */
  lemma {:induction false} ScoresAfterOwn(inputs: seq<StepInputs>, hasVulkanCompute: bool, rtSupported: bool,
                                          scores: map<StepId, int>, n: nat)
    requires n <= |inputs| && n <= |STEPS|
    ensures var r := ScoresAfter(id => id, inputs, hasVulkanCompute, rtSupported, scores, n);
      forall j :: 0 <= j < n ==>
        (STEPS[j] in r && r[STEPS[j]] == StepScore(STEPS[j], inputs[j], hasVulkanCompute, rtSupported))
  {
    if n > 0 {
      ScoresAfterOwn(inputs, hasVulkanCompute, rtSupported, scores, n - 1);
      StepsDistinct();
    }
  }

  /** Running the first `n` steps leaves the entries of the later steps as they were. */
  lemma {:induction false} ScoresAfterOthers(inputs: seq<StepInputs>, hasVulkanCompute: bool, rtSupported: bool,
                                             scores: map<StepId, int>, n: nat)
    requires n <= |inputs| && n <= |STEPS|
    ensures var r := ScoresAfter(id => id, inputs, hasVulkanCompute, rtSupported, scores, n);
      forall id :: id in scores && n <= Index(id) ==> id in r && r[id] == scores[id]
  {
    if n > 0 {
      ScoresAfterKeys(inputs, hasVulkanCompute, rtSupported, scores, n);
      ScoresAfterOthers(inputs, hasVulkanCompute, rtSupported, scores, n - 1);
      assert Index(STEPS[n - 1]) == n - 1;
    }
  }

  class BenchRun {
    var stepScores: map<StepId, int>
    var currentStepIndex: int
    var currentStepProgress: real
    var finished: bool
    /** What `BenchScores.saveScore` has stored, by key. */
    var saved: map<string, int>

    constructor(stored: map<string, int>)
      ensures stepScores == map[] && currentStepIndex == -1 && currentStepProgress == 0.0
      ensures !finished && saved == stored
    {
      stepScores := map[];
      currentStepIndex := -1;
      currentStepProgress := 0.0;
      finished := false;
      saved := stored;
    }

    /** The `LaunchedEffect` of the screen: each step in order records and saves its
        score; then the four category scores and the overall score are computed and
        saved. */
    method RunSteps(inputs: seq<StepInputs>, hasVulkanCompute: bool, rtSupported: bool)
      returns (cpu: Int32, gpu: Int32, mem: Int32, ai: Int32, overall: Int32)
      requires |inputs| == |STEPS|
      modifies this
      ensures stepScores == ScoresAfter(id => id, inputs, hasVulkanCompute, rtSupported, old(stepScores), |STEPS|)
      ensures forall j :: 0 <= j < |STEPS| ==>
        (STEPS[j] in stepScores && stepScores[STEPS[j]] == StepScore(STEPS[j], inputs[j], hasVulkanCompute, rtSupported))
      ensures cpu == CategoryScore(STEPS, stepScores, CPU) && gpu == CategoryScore(STEPS, stepScores, GPU)
      ensures mem == CategoryScore(STEPS, stepScores, MEM) && ai == CategoryScore(STEPS, stepScores, AI)
      ensures overall == Overall(cpu, gpu, mem, ai)
      ensures finished && currentStepIndex == -2 && currentStepProgress == 1.0
      ensures saved == ScoresAfter(Name, inputs, hasVulkanCompute, rtSupported, old(saved), |STEPS|)
        ["CPU Benchmark" := cpu]["GPU Benchmark" := gpu]["Memory Test" := mem]["AI Test" := ai]
        ["overall_score" := overall]
    {
      RecordSteps(inputs, hasVulkanCompute, rtSupported);
      ScoresAfterOwn(inputs, hasVulkanCompute, rtSupported, old(stepScores), |STEPS|);
      cpu, gpu, mem, ai, overall := SaveTotals();
    }

    /** The loop over the steps: step `i` becomes the current one and records and saves
        its score; at the end the run is marked finished. */
    method RecordSteps(inputs: seq<StepInputs>, hasVulkanCompute: bool, rtSupported: bool)
      requires |inputs| == |STEPS|
      modifies this
      ensures stepScores == ScoresAfter(id => id, inputs, hasVulkanCompute, rtSupported, old(stepScores), |STEPS|)
      ensures saved == ScoresAfter(Name, inputs, hasVulkanCompute, rtSupported, old(saved), |STEPS|)
      ensures finished && currentStepIndex == -2 && currentStepProgress == 1.0
    {
      for i := 0 to |STEPS|
        invariant stepScores == ScoresAfter(id => id, inputs, hasVulkanCompute, rtSupported, old(stepScores), i)
        invariant saved == ScoresAfter(Name, inputs, hasVulkanCompute, rtSupported, old(saved), i)
        invariant i > 0 ==> currentStepProgress == 1.0
      {
        RecordStep(i, inputs[i], hasVulkanCompute, rtSupported);
      }
      currentStepIndex := -2;
      finished := true;
    }

    /** Step `i` becomes the current one, runs, and records and saves its score. */
    method RecordStep(i: nat, inp: StepInputs, hasVulkanCompute: bool, rtSupported: bool)
      requires i < |STEPS|
      modifies this
      ensures currentStepIndex == i && currentStepProgress == 1.0 && finished == old(finished)
      ensures stepScores == old(stepScores)[STEPS[i] := StepScore(STEPS[i], inp, hasVulkanCompute, rtSupported)]
      ensures saved == old(saved)[Name(STEPS[i]) := StepScore(STEPS[i], inp, hasVulkanCompute, rtSupported)]
    {
      currentStepIndex := i;
      var step := STEPS[i];
      currentStepProgress := 0.0;
      var score := StepScore(step, inp, hasVulkanCompute, rtSupported);
      stepScores := stepScores[step := score];
      saved := saved[Name(step) := score];
      currentStepProgress := 1.0;
    }

    /** The four category scores and their `Int` sum, saved under their keys. */
    method SaveTotals() returns (cpu: Int32, gpu: Int32, mem: Int32, ai: Int32, overall: Int32)
      modifies this
      ensures cpu == CategoryScore(STEPS, stepScores, CPU) && gpu == CategoryScore(STEPS, stepScores, GPU)
      ensures mem == CategoryScore(STEPS, stepScores, MEM) && ai == CategoryScore(STEPS, stepScores, AI)
      ensures overall == Overall(cpu, gpu, mem, ai)
      ensures saved == old(saved)["CPU Benchmark" := cpu]["GPU Benchmark" := gpu]["Memory Test" := mem]
        ["AI Test" := ai]["overall_score" := overall]
      ensures stepScores == old(stepScores) && finished == old(finished)
      ensures currentStepIndex == old(currentStepIndex) && currentStepProgress == old(currentStepProgress)
    {
      cpu := CategoryScore(STEPS, stepScores, CPU);
      gpu := CategoryScore(STEPS, stepScores, GPU);
      mem := CategoryScore(STEPS, stepScores, MEM);
      ai := CategoryScore(STEPS, stepScores, AI);
      overall := WrapI32(WrapI32(WrapI32(cpu + gpu) + mem) + ai);
      saved := saved["CPU Benchmark" := cpu]["GPU Benchmark" := gpu]["Memory Test" := mem]["AI Test" := ai];
      saved := saved["overall_score" := overall];
    }
  }
}
