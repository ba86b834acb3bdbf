/** The device probes of utils.cpp. The sysfs files `cpu<N>/cpufreq/cpuinfo_max_freq`
    become two oracles: `readable(cpu)` says whether the file opens, `freq(cpu)` is the
    `long` read from it. Probing walks `cpu = 0, 1, ...` and stops at the first file that
    does not open; `bound` is a ghost witness that such a cpu exists, so the probe ends. */
module DeviceUtils {
  import opened Common

  // ---------------------------------------------------------------------------
  // Probing the cores (utils.cpp:24-27, 47-50)

  /** The first unreadable cpu at or after `cpu`. */
  function FirstUnreadable(readable: nat -> bool, cpu: nat, bound: nat): (n: nat)
    requires cpu <= bound && !readable(bound)
    decreases bound - cpu
    ensures cpu <= n <= bound && !readable(n)
    ensures forall i :: cpu <= i < n ==> readable(i)
  {
    if !readable(cpu) then cpu else FirstUnreadable(readable, cpu + 1, bound)
  }

  /** The number of cores the probe finds: the readable prefix `0 .. n-1`. */
  function CoreCount(readable: nat -> bool, bound: nat): nat
    requires !readable(bound)
  {
    FirstUnreadable(readable, 0, bound)
  }

  /** The core count does not depend on which unreadable cpu witnesses the end. */
  lemma CoreCountIs(readable: nat -> bool, bound: nat, n: nat)
    requires !readable(bound) && !readable(n)
    requires forall i :: 0 <= i < n ==> readable(i)
    ensures CoreCount(readable, bound) == n
  {
  }

  /** The frequencies the probe reads, indexed by core id. */
  function Freqs(readable: nat -> bool, freq: nat -> int, bound: nat): (s: seq<int>)
    requires !readable(bound)
    ensures |s| == CoreCount(readable, bound)
    ensures forall i :: 0 <= i < |s| ==> s[i] == freq(i)
  {
    seq(CoreCount(readable, bound), i requires 0 <= i => freq(i))
  }

  // ---------------------------------------------------------------------------
  // get_biggest_core (utils.cpp:21-36)

  /** `get_biggest_core`. `best_freq` starts at -1 and only a strictly greater reading
      replaces it, so the result is the first core of maximal frequency; when there is no
      core, or every reading is below 0, it stays 0. */
  method GetBiggestCore(readable: nat -> bool, freq: nat -> int, ghost bound: nat) returns (best: nat)
    requires !readable(bound)
    ensures var f := Freqs(readable, freq, bound);
      (forall i :: 0 <= i < |f| ==> f[i] < 0) ==> best == 0
    ensures var f := Freqs(readable, freq, bound);
      (exists i :: 0 <= i < |f| && f[i] >= 0) ==>
        best < |f| && f[best] >= 0 &&
        (forall i :: 0 <= i < |f| ==> f[i] <= f[best]) &&
        (forall i :: 0 <= i < best ==> f[i] < f[best])
  {
    ghost var f := Freqs(readable, freq, bound);
    ghost var n := |f|;
    best := 0;
    var bestFreq := -1;
    var cpu: nat := 0;
    while readable(cpu)
      invariant cpu <= n
      invariant forall i :: 0 <= i < cpu ==> readable(i)
      invariant forall i :: 0 <= i < cpu ==> f[i] <= bestFreq
      invariant bestFreq == -1 ==> best == 0
      invariant bestFreq != -1 ==> best < cpu && f[best] == bestFreq && bestFreq >= 0
      invariant bestFreq >= -1
      invariant forall i :: 0 <= i < best ==> f[i] < bestFreq
      decreases n - cpu
    {
      var reading := freq(cpu);
      if reading > bestFreq {
        bestFreq := reading;
        best := cpu;
      }
      cpu := cpu + 1;
    }
    CoreCountIs(readable, bound, cpu);
  }

  // ---------------------------------------------------------------------------
  // get_performance_cores (utils.cpp:38-73)

  /** `min_max_freq` after the probe loop, where -1 stands for "no core yet": a reading
      replaces it when it is -1 or when the reading is smaller. */
  function TrackedMin(f: seq<int>): int
  {
    if |f| == 0 then -1
    else
      var m := TrackedMin(f[..|f| - 1]);
      if m == -1 || f[|f| - 1] < m then f[|f| - 1] else m
  }

  /** On nonnegative readings the tracked value is the minimum reading, and -1 only when
      there is no core. */
  lemma {:induction false} TrackedMinIsMin(f: seq<int>)
    requires forall i :: 0 <= i < |f| ==> f[i] >= 0
    ensures |f| == 0 ==> TrackedMin(f) == -1
    ensures |f| > 0 ==> (exists i :: 0 <= i < |f| && TrackedMin(f) == f[i]) &&
                        (forall i :: 0 <= i < |f| ==> TrackedMin(f) <= f[i])
  {
    if |f| > 0 {
      var g := f[..|f| - 1];
      TrackedMinIsMin(g);
      assert forall i :: 0 <= i < |g| ==> f[i] == g[i];
      if |g| > 0 && TrackedMin(f) == TrackedMin(g) {
        var j :| 0 <= j < |g| && TrackedMin(g) == g[j];
        assert TrackedMin(f) == f[j];
      } else {
        assert TrackedMin(f) == f[|f| - 1];
      }
    }
  }

  /** Some core's reading is strictly above `m`. */
  predicate AnyAbove(f: seq<int>, m: int)
  {
    exists i :: 0 <= i < |f| && f[i] > m
  }

  /** `get_performance_cores`: in ascending id order, the cores whose reading is strictly
      above `min_max_freq`, or every core when there is none; no cores give no result. */
  method GetPerformanceCores(readable: nat -> bool, freq: nat -> int, ghost bound: nat)
    returns (result: seq<nat>)
    requires !readable(bound)
    ensures var f := Freqs(readable, freq, bound);
      forall i: nat :: i in result <==>
        i < |f| && (f[i] > TrackedMin(f) || !AnyAbove(f, TrackedMin(f)))
    ensures forall k, l :: 0 <= k < l < |result| ==> result[k] < result[l]
    ensures |result| == 0 <==> CoreCount(readable, bound) == 0
  {
    ghost var f := Freqs(readable, freq, bound);
    var ids: seq<nat>, freqs: seq<int>;
    var minMaxFreq;
    ids, freqs, minMaxFreq := ProbeCores(readable, freq, bound);
    result := [];
    for k := 0 to |ids|
      invariant forall i: nat :: i in result <==> i < k && f[i] > minMaxFreq
      invariant forall a, b :: 0 <= a < b < |result| ==> result[a] < result[b]
      invariant forall a :: 0 <= a < |result| ==> result[a] < k
    {
      if freqs[k] > minMaxFreq {
        result := result + [ids[k]];
      }
    }
    if |result| == 0 {
      assert !AnyAbove(f, minMaxFreq) by {
        forall i | 0 <= i < |f|
          ensures f[i] <= minMaxFreq
        {
          assert i !in result;
        }
      }
      forall i: nat | i < |ids|
        ensures i in ids
      {
        assert ids[i] == i;
      }
      result := ids;
    } else {
      assert AnyAbove(f, minMaxFreq) by {
        assert result[0] in result;
      }
    }
  }

  /** The probe loop of `get_performance_cores`: the `cores` vector as parallel id and
      reading sequences, and `min_max_freq`. */
  method ProbeCores(readable: nat -> bool, freq: nat -> int, ghost bound: nat)
    returns (ids: seq<nat>, freqs: seq<int>, minMaxFreq: int)
    requires !readable(bound)
    ensures freqs == Freqs(readable, freq, bound)
    ensures |ids| == |freqs| && forall i :: 0 <= i < |ids| ==> ids[i] == i
    ensures minMaxFreq == TrackedMin(freqs)
  {
    ghost var f := Freqs(readable, freq, bound);
    ids, freqs, minMaxFreq := [], [], -1;
    var cpu: nat := 0;
    while readable(cpu)
      invariant cpu <= |f|
      invariant forall i :: 0 <= i < cpu ==> readable(i)
      invariant freqs == f[..cpu]
      invariant |ids| == cpu && forall i :: 0 <= i < cpu ==> ids[i] == i
      invariant minMaxFreq == TrackedMin(freqs)
      decreases |f| - cpu
    {
      var reading := freq(cpu);
      assert (freqs + [reading])[..cpu] == freqs;
      ids, freqs := ids + [cpu], freqs + [reading];
      if minMaxFreq == -1 || reading < minMaxFreq {
        minMaxFreq := reading;
      }
      cpu := cpu + 1;
    }
    CoreCountIs(readable, bound, cpu);
    assert freqs == f;
  }

  /** For nonnegative readings the performance cores are exactly the cores above the
      slowest one, or all cores when every core runs at the same maximum. */
  lemma PerformanceCoresOnRealReadings(f: seq<int>, i: nat)
    requires |f| > 0 && forall k :: 0 <= k < |f| ==> f[k] >= 0
    requires i < |f|
    ensures AnyAbove(f, TrackedMin(f)) <==> exists k :: 0 <= k < |f| && f[k] != f[0]
    ensures AnyAbove(f, TrackedMin(f)) ==> (f[i] > TrackedMin(f) <==> exists k :: 0 <= k < |f| && f[k] < f[i])
  {
    TrackedMinIsMin(f);
    var j :| 0 <= j < |f| && TrackedMin(f) == f[j];
    if exists k :: 0 <= k < |f| && f[k] != f[0] {
      var k :| 0 <= k < |f| && f[k] != f[0];
      if f[k] > TrackedMin(f) {
        assert AnyAbove(f, TrackedMin(f));
      } else {
        assert f[0] > TrackedMin(f);
      }
    }
    if f[i] > TrackedMin(f) {
      assert f[j] < f[i];
    }
  }

  // ---------------------------------------------------------------------------
  // hasVulkanRt (utils.cpp:106-169)

  /** One physical device: `extensions` is what the two-call enumeration lists (its size
      is the count of the first call), `enumOk` whether the second call returns
      `VK_SUCCESS`. */
  datatype Device = Device(extensions: seq<string>, enumOk: bool)

  const RAY_QUERY: string := "VK_KHR_ray_query"

  /** The device's extension list is read and contains the ray-query extension. */
  predicate ReportsRayQuery(d: Device)
  {
    |d.extensions| > 0 && d.enumOk && RAY_QUERY in d.extensions
  }

  /** `hasVulkanRt`: false when the instance cannot be created or there is no device;
      otherwise the device loop, which skips devices with no extensions or a failed
      enumeration and stops at the first extension named `VK_KHR_ray_query`. */
  method HasVulkanRt(instanceOk: bool, devices: seq<Device>) returns (rtSupported: bool)
    ensures rtSupported <==> instanceOk && exists k :: 0 <= k < |devices| && ReportsRayQuery(devices[k])
  {
    if !instanceOk {
      return false;
    }
    if |devices| == 0 {
      return false;
    }
    rtSupported := false;
    var k := 0;
    while k < |devices| && !rtSupported
      invariant k <= |devices|
      invariant rtSupported <==> exists j :: 0 <= j < k && ReportsRayQuery(devices[j])
    {
      var d := devices[k];
      if |d.extensions| > 0 && d.enumOk {
        rtSupported := Contains(d.extensions, RAY_QUERY);
      }
      k := k + 1;
    }
  }

  /** The inner `strcmp` loop with its `break`. */
  method Contains(names: seq<string>, target: string) returns (found: bool)
    ensures found <==> target in names
  {
    found := false;
    var e := 0;
    while e < |names| && !found
      invariant e <= |names|
      invariant found <==> target in names[..e]
    {
      found := names[e] == target;
      assert names[..e + 1] == names[..e] + [names[e]];
      e := e + 1;
    }
    assert found || names[..e] == names;
  }

  // ---------------------------------------------------------------------------
  // update_progress (utils.cpp:82-86)

  /** `update_progress`: the activity's method is called with the value only when the
      environment, the activity and the method id are all present; `calls` is the list of
      values delivered so far. The benchmarks' own progress traces append each value
      directly: they model the case where all three handles are present. */
  function UpdateProgress<T>(calls: seq<T>, envOk: bool, activityOk: bool, methodOk: bool, value: T): (r: seq<T>)
    ensures envOk && activityOk && methodOk ==> |r| == |calls| + 1 && r[..|calls|] == calls && r[|calls|] == value
    ensures !(envOk && activityOk && methodOk) ==> r == calls
  {
    if envOk && activityOk && methodOk then calls + [value] else calls
  }
}
