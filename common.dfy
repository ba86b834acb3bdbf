/** Shared vocabulary for the model: bytes, optional values, and the fixed-width
    wrap-around of the C++ and Kotlin integer types the app uses. */
module Common {

  /** One byte of a buffer or file (`unsigned char`, `uint8_t`, or a Kotlin `Byte`'s bits). */
  type byte = bv8

  datatype Option<+T> = None | Some(value: T)

  const TWO_POW_32: int := 0x1_0000_0000
  const TWO_POW_64: int := 0x1_0000_0000_0000_0000
  const UINT32_MAX: int := 0xFFFF_FFFF
  const INT32_MAX: int := 0x7FFF_FFFF

  /** The byte whose unsigned value is `y` (counting up from 0, which keeps the
      solver away from integer-to-bit-vector conversions). */
  function ByteOf(y: int): (b: byte)
    requires 0 <= y < 256
    ensures b as int == y
  {
    if y == 0 then 0 else ByteOf(y - 1) + 1
  }

  /** The byte `x & 0xFF` for a nonnegative position `x`. */
  function LowByte(x: nat): (b: byte)
    ensures b as int == x % 256
  {
    ByteOf(x % 256)
  }

  /** The test pattern the benchmarks fill buffers and files with: byte `p` is `p & 0xFF`. */
  function CountingBytes(n: nat): (s: seq<byte>)
    ensures |s| == n
    ensures forall p :: 0 <= p < n ==> s[p] as int == p % 256
  {
    seq(n, p requires 0 <= p < n => LowByte(p))
  }

  /** A 64-bit unsigned accumulator: the value modulo 2^64. */
  function WrapU64(x: int): (r: int)
    ensures 0 <= r < TWO_POW_64
    ensures (r - x) % TWO_POW_64 == 0
  {
    x % TWO_POW_64
  }

  /** Kotlin/JVM `Int` arithmetic: the two's-complement value in [-2^31, 2^31) congruent to `x`. */
  function WrapI32(x: int): (r: int)
    ensures -0x8000_0000 <= r <= INT32_MAX
    ensures (r - x) % TWO_POW_32 == 0
  {
    var m := x % TWO_POW_32;
    if m <= INT32_MAX then m else m - TWO_POW_32
  }

  lemma WrapI32Identity(x: int)
    requires -0x8000_0000 <= x <= INT32_MAX
    ensures WrapI32(x) == x
  {
  }

  /** Wrapping is compatible with addition: adding wrapped values and wrapping again
      gives the wrap of the exact sum. */
  lemma WrapI32Add(a: int, b: int)
    ensures WrapI32(WrapI32(a) + WrapI32(b)) == WrapI32(a + b)
  {
    var ra, rb := WrapI32(a), WrapI32(b);
    var qa, qb := (ra - a) / TWO_POW_32, (rb - b) / TWO_POW_32;
    assert ra == a + qa * TWO_POW_32;
    assert rb == b + qb * TWO_POW_32;
    assert ra + rb == (a + b) + (qa + qb) * TWO_POW_32;
    ShiftWrap(a + b, qa + qb);
  }

  lemma ShiftWrap(x: int, k: int)
    ensures WrapI32(x + k * TWO_POW_32) == WrapI32(x)
  {
    assert (x + k * TWO_POW_32) % TWO_POW_32 == x % TWO_POW_32;
  }

  /** Sum of the bytes of `s`, as an unbounded integer. */
  function ByteSum(s: seq<byte>): (r: nat)
    ensures r <= 255 * |s|
  {
    if s == [] then 0 else ByteSum(s[..|s| - 1]) + s[|s| - 1] as int
  }

  lemma {:induction false} ByteSumAppend(s: seq<byte>, t: seq<byte>)
    ensures ByteSum(s + t) == ByteSum(s) + ByteSum(t)
  {
    if t == [] {
      assert s + t == s;
    } else {
      var t' := t[..|t| - 1];
      assert (s + t)[..|s + t| - 1] == s + t';
      ByteSumAppend(s, t');
    }
  }

  /** `ByteSum` of a sequence grown by one element. */
  lemma ByteSumSnoc(s: seq<byte>, b: byte)
    ensures ByteSum(s + [b]) == ByteSum(s) + b as int
  {
    assert (s + [b])[..|s|] == s;
  }

  /** The counting pattern grown by one byte. */
  lemma CountingBytesSnoc(n: nat)
    ensures CountingBytes(n + 1) == CountingBytes(n) + [LowByte(n)]
  {
  }

  /** `0 + 1 + ... + (r - 1)`. */
  function Triangle(r: nat): nat
  {
    if r == 0 then 0 else Triangle(r - 1) + (r - 1)
  }

  lemma {:induction false} TriangleClosed(r: nat)
    ensures 2 * Triangle(r) == r * (r - 1)
  {
    if r > 0 {
      TriangleClosed(r - 1);
    }
  }

  /** The sum of the counting pattern's first `n` values, on integers. */
  function PatternSum(n: nat): nat
  {
    if n == 0 then 0 else PatternSum(n - 1) + (n - 1) % 256
  }

  lemma {:induction false} CountingBytesSum(n: nat)
    ensures ByteSum(CountingBytes(n)) == PatternSum(n)
  {
    if n > 0 {
      CountingBytesSum(n - 1);
      CountingBytesSnoc(n - 1);
      ByteSumSnoc(CountingBytes(n - 1), LowByte(n - 1));
    }
  }

  /** Closed form of the sum of the counting pattern: each full run `0, 1, ..., 255`
      adds 32640, and a partial run of `r` bytes adds `0 + 1 + ... + (r - 1)`. */
  lemma CountingSum(n: nat)
    ensures ByteSum(CountingBytes(n)) == 32640 * (n / 256) + Triangle(n % 256)
  {
    CountingBytesSum(n);
    PatternSumClosed(n);
  }

  lemma {:induction false} PatternSumClosed(n: nat)
    ensures PatternSum(n) == 32640 * (n / 256) + Triangle(n % 256)
  {
    if n > 0 {
      var m := n - 1;
      var q, r := m / 256, m % 256;
      PatternSumClosed(m);
      assert PatternSum(n) == 32640 * q + Triangle(r) + r;
      if r == 255 {
        RunCompleted(n, q, PatternSum(n));
      } else {
        RunContinued(n, q, r, PatternSum(n));
      }
    }
  }

  lemma RunCompleted(n: nat, q: nat, s: int)
    requires n == 256 * q + 256 && s == 32640 * q + Triangle(255) + 255
    ensures s == 32640 * (n / 256) + Triangle(n % 256)
  {
    TriangleClosed(256);
    assert Triangle(256) == Triangle(255) + 255;
    DivMod256(n, q + 1, 0);
  }

  lemma RunContinued(n: nat, q: nat, r: nat, s: int)
    requires n == 256 * q + r + 1 && r < 255 && s == 32640 * q + Triangle(r) + r
    ensures s == 32640 * (n / 256) + Triangle(n % 256)
  {
    assert Triangle(r + 1) == Triangle(r) + r;
    DivMod256(n, q, r + 1);
  }

  lemma DivMod256(n: nat, q: nat, r: nat)
    requires n == 256 * q + r && r < 256
    ensures n / 256 == q && n % 256 == r
  {
  }

  /** `1, 2, ..., n`: the progress numerators sent by a loop that reports its counter
      after each of `n` units of work. */
  function CountTo(n: nat): seq<nat>
  {
    if n == 0 then [] else CountTo(n - 1) + [n]
  }

  /** Update `k` reports `k + 1` finished units. */
  lemma {:induction false} CountToValues(n: nat)
    ensures |CountTo(n)| == n && forall k :: 0 <= k < n ==> CountTo(n)[k] == k + 1
  {
    if n > 0 {
      CountToValues(n - 1);
    }
  }

  /** The positions in `[lo, hi)` that are multiples of `step`, in increasing order:
      where a loop whose progress test is `i % step == 0` sends an update. */
  function Multiples(lo: nat, hi: nat, step: nat): (r: seq<nat>)
    requires step > 0
    decreases hi
    ensures forall x :: x in r <==> (lo <= x < hi && x % step == 0)
    ensures forall k :: 0 <= k < |r| ==> lo <= r[k] < hi
    ensures forall k, l :: 0 <= k < l < |r| ==> r[k] < r[l]
  {
    if hi <= lo then []
    else Multiples(lo, hi - 1, step) + (if (hi - 1) % step == 0 then [hi - 1] else [])
  }

  /** There are `ceil(hi / step)` multiples of `step` in `[0, hi)`. */
  lemma {:induction false} MultiplesFromZeroCount(hi: nat, step: nat)
    requires step > 0
    ensures |Multiples(0, hi, step)| == (hi + step - 1) / step
  {
    if hi > 0 {
      var m := hi - 1;
      MultiplesFromZeroCount(m, step);
      assert |Multiples(0, hi, step)| == |Multiples(0, m, step)| + (if m % step == 0 then 1 else 0);
      CeilStep(m, step);
    }
  }

  /** `ceil((m + 1) / step)` exceeds `ceil(m / step)` by one exactly when `m` is a
      multiple of `step`. */
  lemma CeilStep(m: nat, step: nat)
    requires step > 0
    ensures (m + step) / step == (m + step - 1) / step + (if m % step == 0 then 1 else 0)
  {
    var q, r := m / step, m % step;
    assert m == q * step + r;
    assert (q + 1) * step == q * step + step;
    DivIs(m + step, step, q + 1);
    if r == 0 {
      DivIs(m + step - 1, step, q);
    } else {
      DivIs(m + step - 1, step, q + 1);
    }
  }

  lemma DivIs(x: nat, step: nat, q: nat)
    requires step > 0 && q * step <= x < q * step + step
    ensures x / step == q
  {
    var d := x / step;
    assert x == d * step + x % step;
    if d > q {
      MulLe(q + 1, d, step);
    } else if d < q {
      MulLe(d + 1, q, step);
    }
  }

  lemma {:induction false} MulLe(a: nat, b: nat, c: nat)
    requires a <= b
    ensures a * c <= b * c
  {
    if a < b {
      MulLe(a, b - 1, c);
      assert b * c == (b - 1) * c + c;
    }
  }

  /** Moving the head of the middle part onto the first. */
  lemma ShiftHead<T>(d: seq<T>, b: T, r: seq<T>, rest: seq<T>)
    ensures d + ([b] + r) + rest == (d + [b]) + r + rest
  {
  }

  /** `n` zero bytes. */
  /** `std::min`. */
  function Min(a: int, b: int): (m: int)
    ensures m <= a && m <= b && (m == a || m == b)
  {
    if a < b then a else b
  }

  function Zeros(n: nat): (s: seq<byte>)
    ensures |s| == n && forall p :: 0 <= p < n ==> s[p] == 0
  {
    seq(n, _ => 0)
  }

  lemma ZerosAppend(m: nat, n: nat)
    ensures Zeros(m) + Zeros(n) == Zeros(m + n)
  {
  }

  /** The progress test of a benchmark loop, `if (i % step == 0 && i >= lo)`: the
      updates sent so far grow from those of `[lo, i)` to those of `[lo, i + 1)`. */
  method ReportProgress(progress: seq<nat>, lo: nat, i: nat, step: nat) returns (p: seq<nat>)
    requires step > 0 && progress == Multiples(lo, i, step)
    ensures p == Multiples(lo, i + 1, step)
  {
    if i % step == 0 && i >= lo {
      p := progress + [i];
    } else {
      p := progress;
    }
  }

  /** `pwrite(fd, block, |block|, offset)` on a file at least `offset + |block|` bytes
      long: the bytes at `[offset, offset + |block|)` are replaced and the rest, and the
      length, stay as they were. */
  function Overwrite(file: seq<byte>, offset: nat, block: seq<byte>): (r: seq<byte>)
    requires offset + |block| <= |file|
    ensures |r| == |file|
    ensures r[offset..offset + |block|] == block
    ensures r[..offset] == file[..offset] && r[offset + |block|..] == file[offset + |block|..]
  {
    file[..offset] + block + file[offset + |block|..]
  }

  /** A pre-allocation: `count` zero blocks of `blockSize` bytes written one after
      another through an `ofstream`, whose writes are not checked. */
  method Preallocate(blockSize: nat, count: nat) returns (file: seq<byte>)
    ensures file == Zeros(blockSize * count)
  {
    var emptyBlock := new byte[blockSize](_ => 0);
    assert emptyBlock[..] == Zeros(blockSize);
    file := [];
    for i := 0 to count
      invariant file == Zeros(blockSize * i)
      invariant emptyBlock[..] == Zeros(blockSize)
    {
      ZerosAppend(blockSize * i, blockSize);
      assert blockSize * i + blockSize == blockSize * (i + 1);
      file := file + emptyBlock[..];
    }
  }

  /** The `len` bytes a benchmark draws from its generator in iteration `i`. */
  function RandomBlock(rand: (nat, nat) -> byte, i: nat, len: nat): (b: seq<byte>)
    ensures |b| == len && forall j :: 0 <= j < len ==> b[j] == rand(i, j)
  {
    seq(len, j requires 0 <= j < len => rand(i, j))
  }

  /** The inner loop `block[j] = dist_value(gen)` of iteration `i`. */
  method FillRandom(block: array<byte>, rand: (nat, nat) -> byte, i: nat)
    modifies block
    ensures block[..] == RandomBlock(rand, i, block.Length)
  {
    for j := 0 to block.Length
      invariant forall q :: 0 <= q < j ==> block[q] == rand(i, q)
    {
      block[j] := rand(i, j);
    }
  }

  /** `pread(fd, block, |block|, offset)`, or a `read` at the descriptor's offset, that
      fills the whole block. */
  method ReadAt(file: seq<byte>, offset: nat, block: array<byte>)
    requires offset + block.Length <= |file|
    modifies block
    ensures block[..] == file[offset..offset + block.Length]
  {
    for j := 0 to block.Length
      invariant forall q :: 0 <= q < j ==> block[q] == file[offset + q]
    {
      block[j] := file[offset + j];
    }
  }

  /** How many of the steps `0 .. n - 1` succeed before the first failing one: the
      number of iterations a loop that stops at its first failure completes. */
  function Completed(ok: nat -> bool, n: nat): (k: nat)
    decreases n
    ensures k <= n && forall i :: 0 <= i < k ==> ok(i)
    ensures k < n ==> !ok(k)
  {
    if n == 0 then 0
    else
      var k := Completed(ok, n - 1);
      if k < n - 1 then k else if ok(n - 1) then n else n - 1
  }

  /** `Completed` is the one count whose steps all succeed and which is followed by a
      failure or by the end. */
  lemma CompletedIs(ok: nat -> bool, n: nat, i: nat)
    requires i <= n && forall k :: 0 <= k < i ==> ok(k)
    requires i < n ==> !ok(i)
    ensures Completed(ok, n) == i
  {
  }

  /** One more successful step extends a run of successes. */
  lemma CompletedStep(ok: nat -> bool, n: nat)
    requires Completed(ok, n) == n && ok(n)
    ensures Completed(ok, n + 1) == n + 1
  {
  }

  /** Reducing an accumulator before an addition does not change the sum's residue. */
  lemma ModAdd(a: nat, b: nat, m: nat)
    requires m > 0
    ensures (a % m + b) % m == (a + b) % m
  {
    var q := a / m;
    assert a == q * m + a % m;
    assert a + b == (a % m + b) + q * m;
    AddMultiple(a % m + b, q, m);
  }

  lemma AddMultiple(x: nat, q: nat, m: nat)
    requires m > 0
    ensures (x + q * m) % m == x % m
  {
    var d, r := x / m, x % m;
    assert x == d * m + r;
    assert x + q * m == (d + q) * m + r;
    DivIs(x + q * m, m, d + q);
  }

  /** `acc += block[j]` for every byte of `block`, on a `uint64_t` accumulator. */
  method AccumulateU64(acc: nat, block: array<byte>) returns (r: nat)
    requires acc < TWO_POW_64
    ensures r == (acc + ByteSum(block[..])) % TWO_POW_64
  {
    r := acc;
    for j := 0 to block.Length
      invariant r == (acc + ByteSum(block[..j])) % TWO_POW_64
    {
      assert block[..j + 1][..j] == block[..j];
      ModAdd(acc + ByteSum(block[..j]), block[j] as int, TWO_POW_64);
      r := (r + block[j] as int) % TWO_POW_64;
    }
    assert block[..] == block[..block.Length];
  }
}
