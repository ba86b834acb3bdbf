/** IntegrityChecker.kt: whether the ray-tracing companion app is signed by the expected
    certificate. Each signer's certificate is hashed (SHA-256, a parameter here) and the
    digest written as lowercase hex, two digits per byte; the companion is trusted when one
    of those strings equals the expected hash, and never when a step throws. */
module IntegrityChecker {
  import opened Common

  /** A Kotlin `Byte`, as `MessageDigest.digest` and `Signature.toByteArray` return them. */
  type Int8 = x: int | -128 <= x < 128

  /** A signer's certificate, as `Signature.toByteArray()` gives it. */
  type Cert = seq<Int8>

  /** `Build.VERSION_CODES.P`: from this API level on, signing certificates are read
      through `SigningInfo`. */
  const SDK_P: int := 28

  // ---------------------------------------------------------------------------
  // getSha256's hex encoding (IntegrityChecker.kt:43-47)

  /** `"%02x".format(b)` formats a `Byte` as unsigned: a negative byte gains 256. */
  function Unsigned(b: Int8): (u: nat)
    ensures u < 256
    ensures b >= 0 ==> u == b
    ensures b < 0 ==> u == b + 256
  {
    if b < 0 then b + 256 else b
  }

  /** The byte whose unsigned value is `u`. */
  function Signed(u: nat): (b: Int8)
    requires u < 256
    ensures Unsigned(b) == u
  {
    if u < 128 then u else u - 256
  }

  /** A lowercase hex digit. */
  function HexDigit(n: nat): (c: char)
    requires n < 16
    ensures n < 10 ==> c == '0' + n as char
    ensures n >= 10 ==> c == 'a' + (n - 10) as char
  {
    if n < 10 then '0' + n as char else 'a' + (n - 10) as char
  }

  predicate IsHexDigit(c: char)
  {
    '0' <= c <= '9' || 'a' <= c <= 'f'
  }

  /** The value of a lowercase hex digit: the inverse of `HexDigit`. */
  function HexValue(c: char): (n: nat)
    requires IsHexDigit(c)
    ensures n < 16 && HexDigit(n) == c
  {
    if c <= '9' then (c - '0') as nat else (c - 'a') as nat + 10
  }

  lemma HexValueOfDigit(n: nat)
    requires n < 16
    ensures IsHexDigit(HexDigit(n)) && HexValue(HexDigit(n)) == n
  {
  }

  /** One byte in `%02x`: the high nibble, then the low one. */
  function ByteHex(b: Int8): string
  {
    [HexDigit(Unsigned(b) / 16), HexDigit(Unsigned(b) % 16)]
  }

  /** `digest.joinToString("") { "%02x".format(it) }`. */
  function Hex(bytes: seq<Int8>): string
  {
    if |bytes| == 0 then [] else ByteHex(bytes[0]) + Hex(bytes[1..])
  }

  /** The hex string has two characters per byte, every one a lowercase hex digit, and
      byte `i` is written at `2i` and `2i + 1`, high nibble first. */
  lemma {:induction false} HexShape(bytes: seq<Int8>)
    ensures |Hex(bytes)| == 2 * |bytes|
    ensures forall k :: 0 <= k < |Hex(bytes)| ==> IsHexDigit(Hex(bytes)[k])
    ensures forall i :: 0 <= i < |bytes| ==>
      Hex(bytes)[2 * i] == HexDigit(Unsigned(bytes[i]) / 16) &&
      Hex(bytes)[2 * i + 1] == HexDigit(Unsigned(bytes[i]) % 16)
  {
    if |bytes| > 0 {
      HexShape(bytes[1..]);
      var h := Hex(bytes);
      HexValueOfDigit(Unsigned(bytes[0]) / 16);
      HexValueOfDigit(Unsigned(bytes[0]) % 16);
      forall i | 1 <= i < |bytes|
        ensures h[2 * i] == HexDigit(Unsigned(bytes[i]) / 16)
        ensures h[2 * i + 1] == HexDigit(Unsigned(bytes[i]) % 16)
      {
        assert bytes[1..][i - 1] == bytes[i];
        assert h[2 * i] == Hex(bytes[1..])[2 * (i - 1)];
        assert h[2 * i + 1] == Hex(bytes[1..])[2 * (i - 1) + 1];
      }
    }
  }

  /** Reading the hex back: two digits per byte, high nibble first. */
  function Unhex(s: string): seq<Int8>
    decreases |s|
  {
    if |s| < 2 || !IsHexDigit(s[0]) || !IsHexDigit(s[1]) then []
    else [Signed(HexValue(s[0]) * 16 + HexValue(s[1]))] + Unhex(s[2..])
  }

  /** The encoding loses nothing: the digest can be read back from its hex string. */
  lemma {:induction false} UnhexHex(bytes: seq<Int8>)
    ensures Unhex(Hex(bytes)) == bytes
  {
    if |bytes| > 0 {
      var u := Unsigned(bytes[0]);
      var h := Hex(bytes);
      HexValueOfDigit(u / 16);
      HexValueOfDigit(u % 16);
      assert h[2..] == Hex(bytes[1..]);
      UnhexHex(bytes[1..]);
      assert Signed(u) == bytes[0];
    }
  }

  /** So two digests compare equal as hex strings exactly when they are equal. */
  lemma HexInjective(a: seq<Int8>, b: seq<Int8>)
    ensures Hex(a) == Hex(b) <==> a == b
  {
    if Hex(a) == Hex(b) {
      UnhexHex(a);
      UnhexHex(b);
    }
  }

  // ---------------------------------------------------------------------------
  // isCompanionTrustworthy (IntegrityChecker.kt:13-41)

  /** `signatures.any { getSha256(sig.toByteArray()) == expectedHash }`. */
  function AnyMatches(certs: seq<Cert>, sha256: Cert -> seq<Int8>, expectedHash: string): (r: bool)
    ensures r <==> exists i :: 0 <= i < |certs| && Hex(sha256(certs[i])) == expectedHash
  {
    if |certs| == 0 then false
    else if Hex(sha256(certs[0])) == expectedHash then true
    else
      var r := AnyMatches(certs[1..], sha256, expectedHash);
      assert forall i :: 1 <= i < |certs| ==> certs[1..][i - 1] == certs[i];
      r
  }

  /** `PackageInfo.signingInfo` (API 28 on). */
  datatype SigningInfo = SigningInfo(hasMultipleSigners: bool, apkContentsSigners: Option<seq<Cert>>,
                                     signingCertificateHistory: Option<seq<Cert>>)

  /** What `getPackageInfo` returns for the companion; a null field is None. */
  datatype PackageInfo = PackageInfo(signingInfo: Option<SigningInfo>, signatures: Option<seq<Cert>>)

  /** The certificates the check compares, on API 28 and later: the current signers when
      there are several, otherwise the rotation history. None when the list is null. */
  function Signers(info: SigningInfo): (certs: Option<seq<Cert>>)
    ensures info.hasMultipleSigners ==> certs == info.apkContentsSigners
    ensures !info.hasMultipleSigners ==> certs == info.signingCertificateHistory
  {
    if info.hasMultipleSigners then info.apkContentsSigners else info.signingCertificateHistory
  }

  /** `isCompanionTrustworthy`: `lookup` is None when the companion is not installed
      (`getPackageInfo` throws). Dereferencing a null `signingInfo` or signature list
      throws too; every exception is caught and answers false. */
  function IsCompanionTrustworthy(sdkInt: int, lookup: Option<PackageInfo>, sha256: Cert -> seq<Int8>,
                                  expectedHash: string): (trusted: bool)
    ensures trusted <==> lookup.Some? && exists certs: seq<Cert> ::
      (if sdkInt >= SDK_P
       then lookup.value.signingInfo.Some? && Signers(lookup.value.signingInfo.value) == Some(certs)
       else lookup.value.signatures == Some(certs)) &&
      exists i :: 0 <= i < |certs| && Hex(sha256(certs[i])) == expectedHash
  {
    match lookup
    case None => false
    case Some(info) =>
      var certs :=
        if sdkInt >= SDK_P then (if info.signingInfo.Some? then Signers(info.signingInfo.value) else None)
        else info.signatures;
      certs.Some? && AnyMatches(certs.value, sha256, expectedHash)
  }

  /** The comparison is on the digest itself: a companion is trusted against the hex of
      a digest exactly when one of its signers has that digest. */
  lemma TrustedIffSameDigest(certs: seq<Cert>, sha256: Cert -> seq<Int8>, digest: seq<Int8>)
    ensures AnyMatches(certs, sha256, Hex(digest)) <==>
      exists i :: 0 <= i < |certs| && sha256(certs[i]) == digest
  {
    forall i | 0 <= i < |certs|
      ensures Hex(sha256(certs[i])) == Hex(digest) <==> sha256(certs[i]) == digest
    {
      HexInjective(sha256(certs[i]), digest);
    }
  }
}
