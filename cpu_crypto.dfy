/** The AES-256-CTR benchmarks' bookkeeping (cpu_crypto.cpp): per-block IV
    derivation, the static split of the buffer among threads, the progress counter,
    the error flag and the final round-trip comparison. The block cipher itself is
    abstract: CTR mode XORs the data with a keystream that depends only on the key,
    the initial counter block and the position (section 6.5 of NIST SP 800-38A). */
module CpuCrypto {
  import opened Common

  const SIZE: nat := 256 * 1024 * 1024
  const ITERATIONS: nat := 200
  const BLOCK_BYTES: nat := 16

  // ---------------------------------------------------------------------------
  // get_ctr_iv_for_block (cpu_crypto.cpp:15-19). Bytes 8..16 of the IV hold an
  // `unsigned long long` in native order; arm64-v8a and x86_64, the ABIs the app is
  // built for, are both little-endian.

  /** Unsigned 64-bit addition, which wraps modulo 2^64 as C++ unsigned arithmetic does. */
  function U64Add(a: bv64, b: bv64): bv64
  {
    a + b
  }

  /** The counter word of an IV: bytes 8..16 read least significant first. */
  function CounterWord(iv: seq<byte>): bv64
    requires |iv| == BLOCK_BYTES
  {
    (iv[8] as bv64) | ((iv[9] as bv64) << 8) | ((iv[10] as bv64) << 16) | ((iv[11] as bv64) << 24) |
    ((iv[12] as bv64) << 32) | ((iv[13] as bv64) << 40) | ((iv[14] as bv64) << 48) | ((iv[15] as bv64) << 56)
  }

  /** `iv` with its counter word replaced by `w`, stored least significant byte first. */
  function WithCounter(iv: seq<byte>, w: bv64): (r: seq<byte>)
    requires |iv| == BLOCK_BYTES
    ensures |r| == BLOCK_BYTES && r[..8] == iv[..8]
  {
    [iv[0], iv[1], iv[2], iv[3], iv[4], iv[5], iv[6], iv[7],
     (w & 0xFF) as bv8, ((w >> 8) & 0xFF) as bv8, ((w >> 16) & 0xFF) as bv8, ((w >> 24) & 0xFF) as bv8,
     ((w >> 32) & 0xFF) as bv8, ((w >> 40) & 0xFF) as bv8, ((w >> 48) & 0xFF) as bv8, (w >> 56) as bv8]
  }

  /** Storing a counter word and reading it back gives the word. */
  lemma CounterOfWithCounter(iv: seq<byte>, w: bv64)
    requires |iv| == BLOCK_BYTES
    ensures CounterWord(WithCounter(iv, w)) == w
    ensures WithCounter(iv, w)[..8] == iv[..8]
  {
  }

  lemma OwnCounterLow(iv: seq<byte>)
    requires |iv| == BLOCK_BYTES
    ensures WithCounter(iv, CounterWord(iv))[8] == iv[8]
    ensures WithCounter(iv, CounterWord(iv))[9] == iv[9]
  {
  }

  lemma OwnCounterMidLow(iv: seq<byte>)
    requires |iv| == BLOCK_BYTES
    ensures WithCounter(iv, CounterWord(iv))[10] == iv[10]
    ensures WithCounter(iv, CounterWord(iv))[11] == iv[11]
  {
  }

  lemma OwnCounterMidHigh(iv: seq<byte>)
    requires |iv| == BLOCK_BYTES
    ensures WithCounter(iv, CounterWord(iv))[12] == iv[12]
    ensures WithCounter(iv, CounterWord(iv))[13] == iv[13]
  {
  }

  lemma OwnCounterHigh(iv: seq<byte>)
    requires |iv| == BLOCK_BYTES
    ensures WithCounter(iv, CounterWord(iv))[14] == iv[14]
    ensures WithCounter(iv, CounterWord(iv))[15] == iv[15]
  {
  }

  /** Reading the counter word and storing it back leaves the IV as it was. */
  lemma WithOwnCounter(iv: seq<byte>)
    requires |iv| == BLOCK_BYTES
    ensures WithCounter(iv, CounterWord(iv)) == iv
  {
    OwnCounterLow(iv);
    OwnCounterMidLow(iv);
    OwnCounterMidHigh(iv);
    OwnCounterHigh(iv);
  }

  /** The IV `get_ctr_iv_for_block` produces: the base IV with `blockIndex` added to
      its counter word. `blockIndex` is the two's-complement bit pattern of the
      `long long` argument, which the addition converts to `unsigned long long`. */
  function DeriveIv(base: seq<byte>, blockIndex: bv64): (iv: seq<byte>)
    requires |base| == BLOCK_BYTES
    ensures |iv| == BLOCK_BYTES
  {
    WithCounter(base, U64Add(CounterWord(base), blockIndex))
  }

  /** The derived IV keeps bytes 0..8 of the base IV, and its counter word is the base
      counter word plus the block index, modulo 2^64. */
  lemma DeriveIvWords(base: seq<byte>, blockIndex: bv64)
    requires |base| == BLOCK_BYTES
    ensures DeriveIv(base, blockIndex)[..8] == base[..8]
    ensures CounterWord(DeriveIv(base, blockIndex)) == U64Add(CounterWord(base), blockIndex)
  {
    CounterOfWithCounter(base, U64Add(CounterWord(base), blockIndex));
  }

  lemma AddZero(w: bv64)
    ensures U64Add(w, 0) == w
  {
  }

  /** Block index 0 gives back the base IV. */
  lemma DeriveIvZero(base: seq<byte>)
    requires |base| == BLOCK_BYTES
    ensures DeriveIv(base, 0) == base
  {
    AddZero(CounterWord(base));
    WithOwnCounter(base);
  }

  /** `get_ctr_iv_for_block`: `memcpy` the base IV into `outIv`, then add `blockIndex`
      to the native 64-bit word at `outIv + 8`. */
  method GetCtrIvForBlock(baseIv: array<byte>, blockIndex: bv64, outIv: array<byte>)
    requires baseIv.Length == BLOCK_BYTES && outIv.Length == BLOCK_BYTES && baseIv != outIv
    modifies outIv
    ensures outIv[..] == DeriveIv(baseIv[..], blockIndex)
  {
    forall i | 0 <= i < BLOCK_BYTES {
      outIv[i] := baseIv[i];
    }
    ghost var base := baseIv[..];
    assert outIv[..] == base;
    var counter := CounterWord(outIv[..]);
    counter := U64Add(counter, blockIndex);
    var stored := WithCounter(outIv[..], counter);
    assert stored[..8] == base[..8];
    forall i | 8 <= i < BLOCK_BYTES {
      outIv[i] := stored[i];
    }
    assert outIv[..8] == base[..8];
    assert outIv[..] == stored;
    assert baseIv[..] == base;
  }

  // ---------------------------------------------------------------------------
  // CTR mode over an abstract block cipher

  /** The keystream byte `k` of counter block number `block`, for a key and an initial
      counter block. AES itself, and how the counter block advances from one block to
      the next, are left abstract. */
  type Keystream = (seq<byte>, seq<byte>, nat, nat) -> byte

  /** What one `EVP_EncryptUpdate`/`EVP_DecryptUpdate` call in CTR mode computes for a
      buffer that starts at keystream position 0. */
  function CtrXor(ks: Keystream, key: seq<byte>, iv: seq<byte>, data: seq<byte>): (out: seq<byte>)
    ensures |out| == |data|
  {
    seq(|data|, p requires 0 <= p < |data| => data[p] ^ ks(key, iv, p / BLOCK_BYTES, p % BLOCK_BYTES))
  }

  /** Decrypting with the key and IV used to encrypt restores the plaintext. */
  lemma CtrRoundTrip(ks: Keystream, key: seq<byte>, iv: seq<byte>, data: seq<byte>)
    ensures CtrXor(ks, key, iv, CtrXor(ks, key, iv, data)) == data
  {
    var once := CtrXor(ks, key, iv, data);
    var twice := CtrXor(ks, key, iv, once);
    forall p | 0 <= p < |data|
      ensures twice[p] == data[p]
    {
      var k := ks(key, iv, p / BLOCK_BYTES, p % BLOCK_BYTES);
      assert twice[p] == (data[p] ^ k) ^ k;
    }
  }

  /** One CTR pass of `src[off..off+len]` into `dst[off..off+len]`, the keystream
      starting afresh at `off` (the pointers passed are `data + offset`). */
  method CtrTransform(ks: Keystream, key: seq<byte>, iv: seq<byte>,
                      src: array<byte>, dst: array<byte>, off: nat, len: nat)
    requires off + len <= src.Length == dst.Length && src != dst
    modifies dst
    ensures dst[off..off + len] == CtrXor(ks, key, iv, src[off..off + len])
    ensures forall p :: 0 <= p < dst.Length && !(off <= p < off + len) ==> dst[p] == old(dst[p])
  {
    forall p | off <= p < off + len {
      dst[p] := src[p] ^ ks(key, iv, (p - off) / BLOCK_BYTES, (p - off) % BLOCK_BYTES);
    }
  }

  // ---------------------------------------------------------------------------
  // The static split of the buffer among threads (cpu_crypto.cpp:144-147)

  /** `offset = t * chunk_size` with `chunk_size = SIZE / num_cores`. */
  function ChunkOffset(size: nat, n: nat, t: nat): nat
    requires n > 0
  {
    t * (size / n)
  }

  lemma ChunkOffsetBounded(size: nat, n: nat, t: nat)
    requires t < n
    ensures ChunkOffset(size, n, t) <= size
  {
    var c := size / n;
    assert t * c <= n * c;
    assert n * c <= size;
  }

  /** `current_chunk_size`: `SIZE / num_cores`, except that the last thread takes
      everything from its offset to the end. */
  function ChunkLength(size: nat, n: nat, t: nat): (len: nat)
    requires t < n
    ensures ChunkOffset(size, n, t) + len <= size
  {
    ChunkOffsetBounded(size, n, t);
    if t == n - 1 then size - ChunkOffset(size, n, t)
    else
      ChunkOffsetBounded(size, n, t + 1);
      assert (t + 1) * (size / n) == t * (size / n) + size / n;
      size / n
  }

  /** Each thread's chunk ends where the next one's begins, and the last one ends at
      the end of the buffer. */
  lemma ChunksContiguous(size: nat, n: nat, t: nat)
    requires t < n
    ensures t + 1 < n ==> ChunkOffset(size, n, t) + ChunkLength(size, n, t) == ChunkOffset(size, n, t + 1)
    ensures t + 1 == n ==> ChunkOffset(size, n, t) + ChunkLength(size, n, t) == size
  {
    var c := size / n;
    assert (t + 1) * c == t * c + c;
  }

  /** The first chunk starts at 0, and an earlier thread's chunk lies entirely before a
      later thread's: the chunks are disjoint. */
  lemma {:induction false} ChunksOrdered(size: nat, n: nat, t: nat, u: nat)
    requires t < u < n
    ensures ChunkOffset(size, n, 0) == 0
    ensures ChunkOffset(size, n, t) + ChunkLength(size, n, t) <= ChunkOffset(size, n, u)
    decreases u - t
  {
    ChunksContiguous(size, n, t);
    if t + 1 < u {
      ChunksOrdered(size, n, t + 1, u);
      ChunksContiguous(size, n, t + 1);
    }
  }

  /** The thread whose chunk holds byte `x`, found by scanning from thread `t`. */
  function ChunkContaining(size: nat, n: nat, x: nat, t: nat): (u: nat)
    requires t < n && ChunkOffset(size, n, t) <= x < size
    ensures t <= u < n
    ensures ChunkOffset(size, n, u) <= x < ChunkOffset(size, n, u) + ChunkLength(size, n, u)
    decreases n - t
  {
    ChunksContiguous(size, n, t);
    if x < ChunkOffset(size, n, t) + ChunkLength(size, n, t) then t
    else ChunkContaining(size, n, x, t + 1)
  }

  /** With at least one thread, the chunks cover `[0, SIZE)` and each byte lies in
      exactly one of them. */
  lemma ChunksPartition(size: nat, n: nat, x: nat)
    requires 0 < n && x < size
    ensures exists t :: (0 <= t < n &&
      ChunkOffset(size, n, t) <= x < ChunkOffset(size, n, t) + ChunkLength(size, n, t))
    ensures forall t, u ::
      (0 <= t < n && 0 <= u < n &&
       ChunkOffset(size, n, t) <= x < ChunkOffset(size, n, t) + ChunkLength(size, n, t) &&
       ChunkOffset(size, n, u) <= x < ChunkOffset(size, n, u) + ChunkLength(size, n, u)) ==> t == u
  {
    var t := ChunkContaining(size, n, x, 0);
    forall t, u |
      0 <= t < n && 0 <= u < n &&
      ChunkOffset(size, n, t) <= x < ChunkOffset(size, n, t) + ChunkLength(size, n, t) &&
      ChunkOffset(size, n, u) <= x < ChunkOffset(size, n, u) + ChunkLength(size, n, u)
      ensures t == u
    {
      if t < u { ChunksOrdered(size, n, t, u); }
      if u < t { ChunksOrdered(size, n, u, t); }
    }
  }

  // ---------------------------------------------------------------------------
  // The OpenSSL calls of one encrypt or decrypt pass, and how they can fail

  datatype Phase = Encrypt | Decrypt

  /** The four calls of one pass, in the order they are made: `EVP_CIPHER_CTX_new`,
      `EVP_*Init_ex`, `EVP_*Update`, `EVP_*Final_ex`. */
  datatype EvpCall = NewCtx | Init | Update | Final

  function CallRank(c: EvpCall): nat
  {
    match c
    case NewCtx => 0
    case Init => 1
    case Update => 2
    case Final => 3
  }

  /** Whether a call fails, by thread, iteration, phase and call. What OpenSSL reports
      is outside the model, so every failure pattern is allowed. */
  type CallFailures = (nat, nat, Phase, EvpCall) -> bool

  predicate PassFails(fails: CallFailures, t: nat, iter: nat, ph: Phase)
  {
    fails(t, iter, ph, NewCtx) || fails(t, iter, ph, Init) ||
    fails(t, iter, ph, Update) || fails(t, iter, ph, Final)
  }

  /** The call at which a pass stops: the first failing one in call order. */
  function FirstFailingCall(fails: CallFailures, t: nat, iter: nat, ph: Phase): (c: Option<EvpCall>)
    ensures c.None? <==> !PassFails(fails, t, iter, ph)
    ensures c.Some? ==> fails(t, iter, ph, c.value)
    ensures c.Some? ==> forall d :: CallRank(d) < CallRank(c.value) ==> !fails(t, iter, ph, d)
  {
    if fails(t, iter, ph, NewCtx) then Some(NewCtx)
    else if fails(t, iter, ph, Init) then Some(Init)
    else if fails(t, iter, ph, Update) then Some(Update)
    else if fails(t, iter, ph, Final) then Some(Final)
    else None
  }

  /** The single-core benchmark's return code for a failing call: -2..-5 while
      encrypting, -6..-9 while decrypting, in call order. */
  function ErrorCode(ph: Phase, c: EvpCall): (code: int)
    ensures -9 <= code <= -2
    ensures ph.Encrypt? <==> code >= -5
  {
    (if ph.Encrypt? then -2 else -6) - CallRank(c)
  }

  /** Distinct failing calls give distinct codes, so a code names the call that failed. */
  lemma ErrorCodeDistinguishes(ph1: Phase, c1: EvpCall, ph2: Phase, c2: EvpCall)
    requires ErrorCode(ph1, c1) == ErrorCode(ph2, c2)
    ensures ph1 == ph2 && c1 == c2
  {
    assert ph1.Encrypt? == ph2.Encrypt?;
    assert CallRank(c1) == CallRank(c2);
  }

  /** Passes are numbered in execution order: pass `j` is iteration `j / 2`, encrypting
      when `j` is even and decrypting when it is odd. */
  function PassPhase(j: nat): Phase
  {
    if j % 2 == 0 then Encrypt else Decrypt
  }

  predicate PassNumberFails(fails: CallFailures, t: nat, j: nat)
  {
    PassFails(fails, t, j / 2, PassPhase(j))
  }

  /** The first failing pass of thread `t` at or after pass `from`, if any. */
  function FirstFailingPass(fails: CallFailures, t: nat, from: nat): (j: Option<nat>)
    requires from <= 2 * ITERATIONS
    ensures j.Some? ==> from <= j.value < 2 * ITERATIONS && PassNumberFails(fails, t, j.value)
    ensures j.Some? ==> forall k :: from <= k < j.value ==> !PassNumberFails(fails, t, k)
    ensures j.None? ==> forall k :: from <= k < 2 * ITERATIONS ==> !PassNumberFails(fails, t, k)
    decreases 2 * ITERATIONS - from
  {
    if from == 2 * ITERATIONS then None
    else if PassNumberFails(fails, t, from) then Some(from)
    else FirstFailingPass(fails, t, from + 1)
  }

  // ---------------------------------------------------------------------------
  // Single-core benchmark (cpu_crypto.cpp:24-94)

  /** `memset(key, 0x11, 32)` */
  const KEY: seq<byte> := [0x11, 0x11, 0x11, 0x11, 0x11, 0x11, 0x11, 0x11,
                           0x11, 0x11, 0x11, 0x11, 0x11, 0x11, 0x11, 0x11,
                           0x11, 0x11, 0x11, 0x11, 0x11, 0x11, 0x11, 0x11,
                           0x11, 0x11, 0x11, 0x11, 0x11, 0x11, 0x11, 0x11]
  /** `memset(iv, 0x22, 16)` */
  const BASE_IV: seq<byte> := [0x22, 0x22, 0x22, 0x22, 0x22, 0x22, 0x22, 0x22,
                               0x22, 0x22, 0x22, 0x22, 0x22, 0x22, 0x22, 0x22]

  /** Allocates and fills the input buffer with the counting pattern, and allocates the
      two output buffers, whose contents are left unspecified as `aligned_alloc` leaves
      them. */
  method AllocateBuffers() returns (input: array<byte>, enc: array<byte>, dec: array<byte>)
    ensures fresh(input) && fresh(enc) && fresh(dec)
    ensures input != enc && input != dec && enc != dec
    ensures input.Length == SIZE && enc.Length == SIZE && dec.Length == SIZE
    ensures input[..] == CountingBytes(SIZE)
  {
    input := new byte[SIZE];
    enc := new byte[SIZE];
    dec := new byte[SIZE];
    for i := 0 to SIZE
      invariant forall p :: 0 <= p < i ==> input[p] == LowByte(p)
    {
      input[i] := LowByte(i);
    }
  }

  /** The single-core encrypt pass (cpu_crypto.cpp:56-63): `EVP_EncryptInit_ex` with
      the key and IV, `EVP_EncryptUpdate` over the whole buffer, `EVP_EncryptFinal_ex`. */
  method EncryptAll(ks: Keystream, input: array<byte>, enc: array<byte>)
    requires input.Length == SIZE && enc.Length == SIZE && input != enc
    modifies enc
    ensures enc[..] == CtrXor(ks, KEY, BASE_IV, input[..])
  {
    CtrTransform(ks, KEY, BASE_IV, input, enc, 0, SIZE);
    assert enc[..] == enc[0..SIZE] && input[..] == input[0..SIZE];
  }

  /** The single-core decrypt pass (cpu_crypto.cpp:68-75): the `EVP_Decrypt*` sequence
      with the same key and IV; decrypting the encryption gives the input back. */
  method DecryptAll(ks: Keystream, input: array<byte>, enc: array<byte>, dec: array<byte>)
    requires input.Length == SIZE && enc.Length == SIZE && dec.Length == SIZE
    requires enc != dec && input != dec
    requires enc[..] == CtrXor(ks, KEY, BASE_IV, input[..])
    modifies dec
    ensures dec[..] == input[..]
  {
    CtrTransform(ks, KEY, BASE_IV, enc, dec, 0, SIZE);
    assert enc[..] == enc[0..SIZE] && dec[..] == dec[0..SIZE];
    CtrRoundTrip(ks, KEY, BASE_IV, input[..]);
  }

  /** The single-core run. `allocOk` says whether the three `aligned_alloc` calls
      succeed, `fails` which OpenSSL calls fail (thread 0), `durationMs` what the clock
      measures. `progress` lists the numerators, over `2 * ITERATIONS`, of the progress
      values sent. */
  method RunSingleCore(allocOk: bool, fails: CallFailures, ks: Keystream, durationMs: nat)
    returns (code: int, progress: seq<nat>)
    ensures !allocOk ==> code == -1 && progress == []
    ensures allocOk && FirstFailingPass(fails, 0, 0).None? ==>
      code == durationMs && progress == UpTo(2 * ITERATIONS + 1) + [2 * ITERATIONS]
    ensures allocOk && FirstFailingPass(fails, 0, 0).Some? ==>
      var j := FirstFailingPass(fails, 0, 0).value;
      var c := FirstFailingCall(fails, 0, j / 2, PassPhase(j));
      c.Some? && code == ErrorCode(PassPhase(j), c.value) && progress == UpTo(j + 1)
  {
    if !allocOk {
      return -1, [];
    }
    var input, enc, dec := AllocateBuffers();
    progress := [0];
    assert progress == UpTo(1);
    var iter := 0;
    while iter < ITERATIONS
      invariant 0 <= iter <= ITERATIONS
      invariant NoFailureBefore(fails, 2 * iter)
      invariant progress == UpTo(2 * iter + 1)
      invariant input[..] == CountingBytes(SIZE)
      invariant iter > 0 ==> dec[..] == input[..]
    {
      var c := FirstFailingCall(fails, 0, iter, Encrypt);
      if c.Some? {
        FailureReported(fails, iter, Encrypt, c.value, progress);
        return ErrorCode(Encrypt, c.value), progress;
      }
      EncryptAll(ks, input, enc);
      UpToSnoc(2 * iter + 1);
      progress := progress + [2 * iter + 1];
      c := FirstFailingCall(fails, 0, iter, Decrypt);
      if c.Some? {
        FailureReported(fails, iter, Decrypt, c.value, progress);
        return ErrorCode(Decrypt, c.value), progress;
      }
      DecryptAll(ks, input, enc, dec);
      NoFailureThrough(fails, iter);
      UpToSnoc(2 * iter + 2);
      progress := progress + [2 * iter + 2];
      iter := iter + 1;
    }
    NoFailingPass(fails);
    var mismatch := input[..] != dec[..];
    code := if mismatch then -10 else durationMs;
    progress := progress + [2 * ITERATIONS];
  }

  /** A run stopping at the failing call `c` of iteration `iter`, phase `ph`, reports the
      first failing pass with the progress sent before it. */
  lemma FailureReported(fails: CallFailures, iter: nat, ph: Phase, c: EvpCall, progress: seq<nat>)
    requires iter < ITERATIONS && NoFailureBefore(fails, 2 * iter)
    requires FirstFailingCall(fails, 0, iter, ph) == Some(c)
    requires ph.Decrypt? ==> !PassFails(fails, 0, iter, Encrypt)
    requires progress == UpTo(PassIndex(iter, ph) + 1)
    ensures FirstFailingPass(fails, 0, 0).Some? &&
      var j := FirstFailingPass(fails, 0, 0).value;
      var c' := FirstFailingCall(fails, 0, j / 2, PassPhase(j));
      c'.Some? && ErrorCode(ph, c) == ErrorCode(PassPhase(j), c'.value) && progress == UpTo(j + 1)
  {
    FirstFailureAt(fails, iter, ph);
  }

  /** `[0, 1, ..., m - 1]`: the progress numerators sent after `m - 1` passes. */
  function UpTo(m: nat): (r: seq<nat>)
    ensures |r| == m && forall k :: 0 <= k < m ==> r[k] == k
  {
    if m == 0 then [] else UpTo(m - 1) + [m - 1]
  }

  lemma UpToSnoc(m: nat)
    ensures UpTo(m) + [m] == UpTo(m + 1)
  {
  }

  /** The number of the pass of iteration `iter` in phase `ph`. */
  function PassIndex(iter: nat, ph: Phase): (j: nat)
    ensures j / 2 == iter && PassPhase(j) == ph
  {
    2 * iter + (if ph.Encrypt? then 0 else 1)
  }

  /** Thread 0 has no failing pass before pass `j`. */
  predicate NoFailureBefore(fails: CallFailures, j: nat)
  {
    forall k :: 0 <= k < j ==> !PassNumberFails(fails, 0, k)
  }

  lemma NoFailureThrough(fails: CallFailures, iter: nat)
    requires NoFailureBefore(fails, 2 * iter)
    requires !PassFails(fails, 0, iter, Encrypt) && !PassFails(fails, 0, iter, Decrypt)
    ensures NoFailureBefore(fails, 2 * (iter + 1))
  {
    assert PassIndex(iter, Encrypt) == 2 * iter;
    assert PassIndex(iter, Decrypt) == 2 * iter + 1;
  }

  lemma FirstFailureAt(fails: CallFailures, iter: nat, ph: Phase)
    requires iter < ITERATIONS && NoFailureBefore(fails, 2 * iter) && PassFails(fails, 0, iter, ph)
    requires ph.Decrypt? ==> !PassFails(fails, 0, iter, Encrypt)
    ensures FirstFailingPass(fails, 0, 0) == Some(PassIndex(iter, ph))
  {
    var j := PassIndex(iter, ph);
    if ph.Decrypt? {
      assert PassIndex(iter, Encrypt) == 2 * iter;
    }
    FirstFailingPassIs(fails, 0, 0, j);
  }

  /** A failing pass with no failing pass before it is the first failing pass. */
  lemma {:induction false} FirstFailingPassIs(fails: CallFailures, t: nat, from: nat, j: nat)
    requires from <= j < 2 * ITERATIONS && PassNumberFails(fails, t, j)
    requires forall k :: from <= k < j ==> !PassNumberFails(fails, t, k)
    ensures FirstFailingPass(fails, t, from) == Some(j)
    decreases j - from
  {
    if from < j {
      FirstFailingPassIs(fails, t, from + 1, j);
    }
  }

  lemma NoFailingPass(fails: CallFailures)
    requires NoFailureBefore(fails, 2 * ITERATIONS)
    ensures FirstFailingPass(fails, 0, 0).None?
  {
  }

  // ---------------------------------------------------------------------------
  // Multi-core benchmark (cpu_crypto.cpp:96-213)

  /** The two atomics the worker threads share: `progress_counter` and `error_flag`. */
  class CryptoShared {
    var progress: nat
    var errorFlag: bool
    /** The numerators (over `total_progress_steps`) the worker threads have sent. */
    var sent: seq<nat>

    constructor()
      ensures progress == 0 && !errorFlag && sent == []
    {
      progress := 0;
      errorFlag := false;
      sent := [];
    }

    /** With the threads taking whole turns, each value sent is the counter right
        after its own increment: the values sent are `1, 2, ..., progress`. */
    predicate Reported()
      reads this
    {
      sent == CountTo(progress)
    }

    /** `progress_counter.fetch_add(1)` followed by the `CallVoidMethod` that sends
        `progress_counter.load() / total_progress_steps`. */
    method FetchAddProgress()
      modifies this
      ensures progress == old(progress) + 1 && errorFlag == old(errorFlag)
      ensures sent == old(sent) + [progress]
    {
      progress := progress + 1;
      sent := sent + [progress];
    }

    /** `error_flag = true`. */
    method RaiseError()
      modifies this
      ensures errorFlag && progress == old(progress) && sent == old(sent)
    {
      errorFlag := true;
    }
  }

  /** The IV a thread whose chunk starts at `off` uses in iteration `iter`, for both
      passes: the base IV advanced by `off / 16 + iter * (SIZE / 16)` blocks. */
  function ThreadIv(off: nat, iter: nat): seq<byte>
    requires off <= SIZE && iter < ITERATIONS
  {
    DeriveIv(BASE_IV, BlockIndex(off, iter))
  }

  /** `(offset / 16) + (long long)iter * (SIZE / 16)`, which is far below 2^63. */
  function BlockIndex(off: nat, iter: nat): bv64
    requires off <= SIZE && iter < ITERATIONS
  {
    ToU64(off / BLOCK_BYTES + iter * (SIZE / BLOCK_BYTES))
  }

  /** The `uint64_t` block index: the 64-bit word whose bits are the binary digits of
      `n`, least significant first. No lemma relates the word back to `n` as an
      integer; the IV properties only need it to be some fixed word per index. */
  function ToU64(n: nat): bv64
  {
    if n == 0 then 0 else (ToU64(n / 2) << 1) | (if n % 2 == 1 then 1 else 0)
  }

  /** Thread `t` stops early: it cannot attach to the VM, or some call of one of its
      passes fails. */
  predicate ThreadFails(attachOk: nat -> bool, fails: CallFailures, t: nat)
  {
    !attachOk(t) || FailsBefore(fails, t, ITERATIONS)
  }

  /** Some iteration of thread `t` below `n` fails. */
  predicate FailsBefore(fails: CallFailures, t: nat, n: nat)
  {
    exists iter :: 0 <= iter < n && IterationFails(fails, t, iter)
  }

  lemma FailsBeforeStep(fails: CallFailures, t: nat, n: nat)
    ensures FailsBefore(fails, t, n + 1) <==> FailsBefore(fails, t, n) || IterationFails(fails, t, n)
  {
    if FailsBefore(fails, t, n + 1) && !IterationFails(fails, t, n) {
      var k :| 0 <= k < n + 1 && IterationFails(fails, t, k);
      assert k < n;
    }
  }

  lemma FailsBeforeMonotone(fails: CallFailures, t: nat, m: nat, n: nat)
    requires m <= n && FailsBefore(fails, t, m)
    ensures FailsBefore(fails, t, n)
  {
    var k :| 0 <= k < m && IterationFails(fails, t, k);
    assert 0 <= k < n && IterationFails(fails, t, k);
  }

  predicate IterationFails(fails: CallFailures, t: nat, iter: nat)
  {
    PassFails(fails, t, iter, Encrypt) || PassFails(fails, t, iter, Decrypt)
  }

  /** `enc[off..off+len]` is `plain[off..off+len]` encrypted under `iv`. */
  predicate Encrypted(ks: Keystream, iv: seq<byte>, off: nat, len: nat, plain: seq<byte>, enc: seq<byte>)
    requires off + len <= |plain| && off + len <= |enc|
  {
    enc[off..off + len] == CtrXor(ks, KEY, iv, plain[off..off + len])
  }

  /** `dec[off..off+len]` equals `plain[off..off+len]`. */
  predicate Restored(off: nat, len: nat, plain: seq<byte>, dec: seq<byte>)
    requires off + len <= |plain| && off + len <= |dec|
  {
    dec[off..off + len] == plain[off..off + len]
  }

  /** `a` and `b` agree outside `[off, off+len)`. */
  predicate SameOutside(off: nat, len: nat, a: seq<byte>, b: seq<byte>)
    requires |a| == |b|
  {
    forall p :: 0 <= p < |a| && !(off <= p < off + len) ==> a[p] == b[p]
  }

  lemma SameOutsideTrans(off: nat, len: nat, a: seq<byte>, b: seq<byte>, c: seq<byte>)
    requires |a| == |b| == |c| && SameOutside(off, len, a, b) && SameOutside(off, len, b, c)
    ensures SameOutside(off, len, a, c)
  {
  }

  /** Thread `t` of `n`: its chunk of `enc` is its chunk of `plain` encrypted under the
      IV of its last iteration. */
  predicate ChunkEncrypted(ks: Keystream, n: nat, t: nat, plain: seq<byte>, enc: seq<byte>)
    requires t < n && |plain| == SIZE && |enc| == SIZE
  {
    var off, len := ChunkOffset(SIZE, n, t), ChunkLength(SIZE, n, t);
    Encrypted(ks, ThreadIv(off, ITERATIONS - 1), off, len, plain, enc)
  }

  /** Thread `t`'s chunk after a complete run: encrypted under its last IV in `enc`,
      restored in `dec`. */
  predicate ChunkDone(ks: Keystream, n: nat, t: nat, plain: seq<byte>, enc: seq<byte>, dec: seq<byte>)
    requires t < n && |plain| == SIZE && |enc| == SIZE && |dec| == SIZE
  {
    ChunkEncrypted(ks, n, t, plain, enc) &&
    Restored(ChunkOffset(SIZE, n, t), ChunkLength(SIZE, n, t), plain, dec)
  }

  /** The IV of iteration `iter`, derived into a fresh 16-byte buffer. */
  method DeriveThreadIv(baseIv: array<byte>, off: nat, iter: nat) returns (iv: seq<byte>)
    requires baseIv[..] == BASE_IV && off <= SIZE && iter < ITERATIONS
    ensures iv == ThreadIv(off, iter)
  {
    var threadIv := new byte[BLOCK_BYTES];
    GetCtrIvForBlock(baseIv, BlockIndex(off, iter), threadIv);
    iv := threadIv[..];
  }

  /** One encrypt or decrypt pass over `[off, off+len)` from `src` into `dst`: when one
      of its calls fails the error flag is raised and nothing is counted; otherwise the
      chunk is transformed and the progress counter advances by one. */
  method CipherPass(shared: CryptoShared, ks: Keystream, iv: seq<byte>,
                    src: array<byte>, dst: array<byte>, off: nat, len: nat, failing: bool)
    requires off + len <= src.Length == dst.Length && src != dst && shared.Reported()
    modifies shared, dst
    ensures shared.Reported()
    ensures shared.errorFlag == (old(shared.errorFlag) || failing)
    ensures shared.progress == old(shared.progress) + (if failing then 0 else 1)
    ensures !failing ==> Encrypted(ks, iv, off, len, src[..], dst[..])
    ensures SameOutside(off, len, dst[..], old(dst[..]))
  {
    if failing {
      shared.RaiseError();
    } else {
      CtrTransform(ks, KEY, iv, src, dst, off, len);
      shared.FetchAddProgress();
      assert src[..][off..off + len] == src[off..off + len];
      assert dst[..][off..off + len] == dst[off..off + len];
    }
  }

  /** One iteration of thread `t`'s loop, entered with the error flag clear: derive
      the iteration's IV, encrypt the chunk, count, decrypt it with the same IV,
      count; a failing call raises the error flag and ends the iteration. */
  method RunIteration(shared: CryptoShared, ks: Keystream, baseIv: array<byte>,
                      input: array<byte>, enc: array<byte>, dec: array<byte>,
                      off: nat, len: nat, t: nat, iter: nat, fails: CallFailures)
    requires !shared.errorFlag && baseIv[..] == BASE_IV && shared.Reported()
    requires off + len <= SIZE && iter < ITERATIONS
    requires input.Length == SIZE && enc.Length == SIZE && dec.Length == SIZE
    requires input != enc && input != dec && enc != dec
    modifies shared, enc, dec
    ensures shared.Reported()
    ensures shared.errorFlag == IterationFails(fails, t, iter)
    ensures old(shared.progress) <= shared.progress <= old(shared.progress) + 2
    ensures !shared.errorFlag ==> shared.progress == old(shared.progress) + 2
    ensures !shared.errorFlag ==>
      Encrypted(ks, ThreadIv(off, iter), off, len, input[..], enc[..]) && Restored(off, len, input[..], dec[..])
    ensures SameOutside(off, len, enc[..], old(enc[..])) && SameOutside(off, len, dec[..], old(dec[..]))
  {
    var iv := DeriveThreadIv(baseIv, off, iter);
    var encFails := PassFails(fails, t, iter, Encrypt);
    CipherPass(shared, ks, iv, input, enc, off, len, encFails);
    if !encFails {
      var decFails := PassFails(fails, t, iter, Decrypt);
      CipherPass(shared, ks, iv, enc, dec, off, len, decFails);
      if !decFails {
        CtrRoundTrip(ks, KEY, iv, input[..][off..off + len]);
      }
    }
  }

  /** The body of worker thread `t`: attach, then up to `ITERATIONS` encrypt/decrypt
      rounds over its own chunk `[off, off+len)`, checking the error flag before each
      round. */
  method RunThread(shared: CryptoShared, ks: Keystream, baseIv: array<byte>,
                   input: array<byte>, enc: array<byte>, dec: array<byte>,
                   off: nat, len: nat, t: nat, attachOk: nat -> bool, fails: CallFailures)
    requires baseIv[..] == BASE_IV && off + len <= SIZE && shared.Reported()
    requires input.Length == SIZE && enc.Length == SIZE && dec.Length == SIZE
    requires input != enc && input != dec && enc != dec
    modifies shared, enc, dec
    ensures shared.Reported()
    ensures shared.errorFlag == (old(shared.errorFlag) || ThreadFails(attachOk, fails, t))
    ensures old(shared.progress) <= shared.progress <= old(shared.progress) + 2 * ITERATIONS
    ensures !shared.errorFlag ==> shared.progress == old(shared.progress) + 2 * ITERATIONS
    ensures !shared.errorFlag ==>
      Encrypted(ks, ThreadIv(off, ITERATIONS - 1), off, len, input[..], enc[..]) &&
      Restored(off, len, input[..], dec[..])
    ensures SameOutside(off, len, enc[..], old(enc[..])) && SameOutside(off, len, dec[..], old(dec[..]))
  {
    if !attachOk(t) {
      shared.RaiseError();
      return;
    }
    var iter := 0;
    while iter < ITERATIONS && !shared.errorFlag
      invariant 0 <= iter <= ITERATIONS && shared.Reported()
      invariant shared.errorFlag == (old(shared.errorFlag) || FailsBefore(fails, t, iter))
      invariant old(shared.progress) <= shared.progress <= old(shared.progress) + 2 * iter
      invariant !shared.errorFlag ==> shared.progress == old(shared.progress) + 2 * iter
      invariant !shared.errorFlag && iter > 0 ==>
        Encrypted(ks, ThreadIv(off, iter - 1), off, len, input[..], enc[..]) &&
        Restored(off, len, input[..], dec[..])
      invariant SameOutside(off, len, enc[..], old(enc[..])) && SameOutside(off, len, dec[..], old(dec[..]))
    {
      ghost var enc0, dec0 := enc[..], dec[..];
      RunIteration(shared, ks, baseIv, input, enc, dec, off, len, t, iter, fails);
      FailsBeforeStep(fails, t, iter);
      SameOutsideTrans(off, len, enc[..], enc0, old(enc[..]));
      SameOutsideTrans(off, len, dec[..], dec0, old(dec[..]));
      iter := iter + 1;
    }
    if shared.errorFlag && !old(shared.errorFlag) {
      FailsBeforeMonotone(fails, t, iter, ITERATIONS);
    }
  }

  /** The `num_cores` worker threads, each taking its whole turn before the next
      starts, from a fresh shared state. */
  method RunThreads(shared: CryptoShared, ks: Keystream, baseIv: array<byte>,
                    input: array<byte>, enc: array<byte>, dec: array<byte>,
                    n: nat, attachOk: nat -> bool, fails: CallFailures)
    requires baseIv[..] == BASE_IV && input[..] == CountingBytes(SIZE)
    requires input.Length == SIZE && enc.Length == SIZE && dec.Length == SIZE
    requires input != enc && input != dec && enc != dec
    requires shared.progress == 0 && !shared.errorFlag && shared.sent == []
    modifies shared, enc, dec
    ensures input[..] == CountingBytes(SIZE) && shared.Reported()
    ensures shared.errorFlag == exists u :: 0 <= u < n && ThreadFails(attachOk, fails, u)
    ensures shared.progress <= 2 * ITERATIONS * n
    ensures !shared.errorFlag ==> shared.progress == 2 * ITERATIONS * n
    ensures !shared.errorFlag ==> forall u :: 0 <= u < n ==> ChunkDone(ks, n, u, input[..], enc[..], dec[..])
  {
    var t := 0;
    while t < n
      invariant 0 <= t <= n && shared.Reported()
      invariant input[..] == CountingBytes(SIZE)
      invariant shared.errorFlag == exists u :: 0 <= u < t && ThreadFails(attachOk, fails, u)
      invariant shared.progress <= 2 * ITERATIONS * t
      invariant !shared.errorFlag ==> shared.progress == 2 * ITERATIONS * t
      invariant !shared.errorFlag ==> forall u :: 0 <= u < t ==> ChunkDone(ks, n, u, input[..], enc[..], dec[..])
    {
      ghost var enc0, dec0 := enc[..], dec[..];
      var off, len := ChunkOffset(SIZE, n, t), ChunkLength(SIZE, n, t);
      RunThread(shared, ks, baseIv, input, enc, dec, off, len, t, attachOk, fails);
      if !shared.errorFlag {
        KeepEarlierChunks(ks, n, t, input[..], enc0, dec0, enc[..], dec[..]);
      }
      t := t + 1;
    }
  }

  /** The multi-core run, with the worker threads taking their turns one after another
      (one of the interleavings the threads allow). `numCores` is
      `hardware_concurrency()`, which may be 0. `encrypted` is the ciphertext buffer
      after the join. `sent` are the progress values sent to the activity, as
      numerators over `total_progress_steps` (`2 * ITERATIONS * numCores`): the 0.0
      sent before the threads start, then one per finished cipher pass; `finalSent`
      says whether the closing 1.0 was sent. */
  method RunMulticore(allocOk: bool, numCores: nat, attachOk: nat -> bool, fails: CallFailures,
                      ks: Keystream, durationMs: nat)
    returns (code: int, progress: nat, encrypted: seq<byte>, sent: seq<nat>, finalSent: bool)
    ensures !allocOk ==> code == -1 && progress == 0 && sent == [] && !finalSent
    ensures allocOk ==> sent == [0] + CountTo(progress) && (finalSent <==> code == durationMs)
    ensures forall i :: 0 <= i < |sent| ==> sent[i] <= 2 * ITERATIONS * numCores
    ensures forall i :: 0 < i < |sent| ==> sent[i] >= 1
    ensures allocOk ==>
      (code == -11 <==> exists t :: 0 <= t < numCores && ThreadFails(attachOk, fails, t))
    ensures progress <= 2 * ITERATIONS * numCores
    ensures code == -10 ==> allocOk && numCores == 0
    ensures allocOk && numCores > 0 && !(exists t :: 0 <= t < numCores && ThreadFails(attachOk, fails, t)) ==>
      code == durationMs && progress == 2 * ITERATIONS * numCores && |encrypted| == SIZE &&
      forall t :: 0 <= t < numCores ==> ChunkEncrypted(ks, numCores, t, CountingBytes(SIZE), encrypted)
  {
    if !allocOk {
      return -1, 0, [], [], false;
    }
    var input, enc, dec := AllocateBuffers();
    var baseIv := new byte[BLOCK_BYTES];
    forall i | 0 <= i < BLOCK_BYTES {
      baseIv[i] := 0x22;
    }
    assert baseIv[..] == BASE_IV;
    var shared := new CryptoShared();
    var n := numCores;
    RunThreads(shared, ks, baseIv, input, enc, dec, n, attachOk, fails);
    progress := shared.progress;
    encrypted := enc[..];
    // `update_progress(..., 0.0f)` before the threads, then what the threads sent.
    sent := [0] + shared.sent;
    CountToValues(progress);
    if !shared.errorFlag && n > 0 {
      AllChunksRestored(ks, n, input[..], enc[..], dec[..]);
      forall u | 0 <= u < n
        ensures ChunkEncrypted(ks, n, u, input[..], encrypted)
      {
        assert ChunkDone(ks, n, u, input[..], enc[..], dec[..]);
      }
    }
    if shared.errorFlag {
      return -11, progress, encrypted, sent, false;
    }
    var mismatch := input[..] != dec[..];
    // The final `update_progress(..., 1.0f)` comes after both checks.
    code, finalSent := if mismatch then -10 else durationMs, !mismatch;
  }

  /** Running thread `t` leaves the earlier threads' finished chunks as they were,
      since those chunks lie before its own. */
  lemma KeepEarlierChunks(ks: Keystream, n: nat, t: nat, plain: seq<byte>,
                          enc0: seq<byte>, dec0: seq<byte>, enc1: seq<byte>, dec1: seq<byte>)
    requires t < n && |plain| == |enc0| == |dec0| == |enc1| == |dec1| == SIZE
    requires forall u :: 0 <= u < t ==> ChunkDone(ks, n, u, plain, enc0, dec0)
    requires SameOutside(ChunkOffset(SIZE, n, t), ChunkLength(SIZE, n, t), enc1, enc0)
    requires SameOutside(ChunkOffset(SIZE, n, t), ChunkLength(SIZE, n, t), dec1, dec0)
    requires Encrypted(ks, ThreadIv(ChunkOffset(SIZE, n, t), ITERATIONS - 1),
                       ChunkOffset(SIZE, n, t), ChunkLength(SIZE, n, t), plain, enc1)
    requires Restored(ChunkOffset(SIZE, n, t), ChunkLength(SIZE, n, t), plain, dec1)
    ensures forall u :: 0 <= u < t + 1 ==> ChunkDone(ks, n, u, plain, enc1, dec1)
  {
    forall u | 0 <= u < t + 1
      ensures ChunkDone(ks, n, u, plain, enc1, dec1)
    {
      if u < t {
        ChunksOrdered(SIZE, n, u, t);
        var off, len := ChunkOffset(SIZE, n, u), ChunkLength(SIZE, n, u);
        assert ChunkDone(ks, n, u, plain, enc0, dec0);
        assert enc1[off..off + len] == enc0[off..off + len];
        assert dec1[off..off + len] == dec0[off..off + len];
      }
    }
  }

  /** Once every thread has finished its chunk, the whole decrypted buffer equals the
      input: the chunks cover the buffer. */
  lemma AllChunksRestored(ks: Keystream, n: nat, plain: seq<byte>, enc: seq<byte>, dec: seq<byte>)
    requires 0 < n && |plain| == |enc| == |dec| == SIZE
    requires forall u :: 0 <= u < n ==> ChunkDone(ks, n, u, plain, enc, dec)
    ensures dec == plain
  {
    forall x | 0 <= x < SIZE
      ensures dec[x] == plain[x]
    {
      var u := ChunkContaining(SIZE, n, x, 0);
      var off, len := ChunkOffset(SIZE, n, u), ChunkLength(SIZE, n, u);
      assert ChunkDone(ks, n, u, plain, enc, dec);
      assert dec[off..off + len][x - off] == plain[off..off + len][x - off];
    }
  }
}
