/** BitmapUtils.kt: loading one 384x384 test image for the AI benchmark. The decoded
    bitmap's pixels are copied into a buffer of four bytes per pixel, and a loop over that
    buffer keeps the last three bytes of every pixel, giving three bytes per pixel.
    Opening the asset and decoding it are an input here. */
module BitmapUtils {
  import opened Common

  const EXPECTED_WIDTH: int := 384
  const EXPECTED_HEIGHT: int := 384
  const NUM_PIXELS: nat := 384 * 384

  /** What opening and decoding the asset gives: an exception, a null bitmap, or a bitmap
      with its size and the bytes `copyPixelsToBuffer` writes. */
  datatype Decoded = DecodeThrew | NullBitmap | Bitmap(width: int, height: int, pixels: seq<byte>)

  /** The outcome of `loadAndPrepareImage`: the RGB bytes, null, or the exception that
      `copyPixelsToBuffer` throws (outside the `try`) when the pixels do not fit. */
  datatype Loaded = Rgb(bytes: seq<byte>) | Null | CopyThrew

  // ---------------------------------------------------------------------------
  // The repacking (BitmapUtils.kt:36-48)

  /** Each group of four bytes without its first byte (a shorter tail, which the loop
      never meets, is dropped). */
  function RgbOf(buf: seq<byte>): seq<byte>
    decreases |buf|
  {
    if |buf| < 4 then [] else buf[1..4] + RgbOf(buf[4..])
  }

  /** Appending one more pixel appends its last three bytes. */
  lemma {:induction false} RgbOfSnoc(buf: seq<byte>, px: seq<byte>, k: nat)
    requires |buf| == 4 * k && |px| == 4
    ensures RgbOf(buf + px) == RgbOf(buf) + px[1..4]
  {
    if k == 0 {
      assert buf + px == px;
      assert px[4..] == [];
    } else {
      assert (buf + px)[4..] == buf[4..] + px;
      assert (buf + px)[1..4] == buf[1..4];
      RgbOfSnoc(buf[4..], px, k - 1);
    }
  }

  /** Pixel `p`'s four bytes in the buffer. */
  function Group(buf: seq<byte>, p: nat): seq<byte>
    requires 4 * p + 4 <= |buf|
  {
    buf[4 * p..4 * p + 4]
  }

  /** Pixel `p`'s three bytes in the output. */
  function Triple(rgb: seq<byte>, p: nat): seq<byte>
    requires 3 * p + 3 <= |rgb|
  {
    rgb[3 * p..3 * p + 3]
  }

  /** The output has three bytes per pixel, and pixel `p`'s three bytes are the last three
      of its four in the buffer. */
  lemma {:induction false} RgbOfPixels(buf: seq<byte>)
    requires |buf| % 4 == 0
    ensures |RgbOf(buf)| == |buf| / 4 * 3
    ensures forall p: nat :: p < |buf| / 4 ==> Triple(RgbOf(buf), p) == Group(buf, p)[1..4]
    decreases |buf|
  {
    if |buf| > 0 {
      var rest := buf[4..];
      RgbOfPixels(rest);
      forall p: nat | 1 <= p < |buf| / 4
        ensures Triple(RgbOf(buf), p) == Group(buf, p)[1..4]
      {
        assert Triple(RgbOf(buf), p) == Triple(RgbOf(rest), p - 1);
        assert Group(rest, p - 1) == Group(buf, p);
      }
    }
  }

  /** The `while (byteBuffer.hasRemaining())` loop: each turn skips one byte and copies
      the next three, advancing the output index by three. */
  method Repack(buf: array<byte>) returns (rgb: array<byte>)
    requires buf.Length % 4 == 0
    ensures fresh(rgb)
    ensures rgb[..] == RgbOf(buf[..])
  {
    ghost var n := buf.Length / 4;
    rgb := new byte[buf.Length / 4 * 3];
    var pos, arrayIndex := 0, 0;
    ghost var p := 0;
    while pos < buf.Length
      invariant buf.Length == 4 * n && rgb.Length == 3 * n
      invariant 0 <= p <= n && pos == 4 * p && arrayIndex == 3 * p
      invariant rgb[..arrayIndex] == RgbOf(buf[..pos])
      decreases n - p
    {
      ghost var px := buf[pos..pos + 4];
      assert buf[..pos + 4] == buf[..pos] + px;
      CopyPixel(buf, pos, rgb, arrayIndex);
      RgbOfSnoc(buf[..pos], px, p);
      pos := pos + 4;
      arrayIndex := arrayIndex + 3;
      p := p + 1;
    }
    assert buf[..pos] == buf[..];
    assert rgb[..arrayIndex] == rgb[..];
  }

  /** One turn of the loop: skip `buf[pos]`, copy the next three bytes to `rgb`. */
  method CopyPixel(buf: array<byte>, pos: nat, rgb: array<byte>, arrayIndex: nat)
    requires buf != rgb && pos + 4 <= buf.Length && arrayIndex + 3 <= rgb.Length
    modifies rgb
    ensures rgb[..arrayIndex + 3] == old(rgb[..arrayIndex]) + buf[pos..pos + 4][1..4]
  {
    ghost var before := rgb[..arrayIndex];
    ghost var px := buf[pos..pos + 4];
    ghost var kept := [px[1], px[2], px[3]];
    assert px[1..4] == kept;
    rgb[arrayIndex] := buf[pos + 1];
    rgb[arrayIndex + 1] := buf[pos + 2];
    rgb[arrayIndex + 2] := buf[pos + 3];
    assert rgb[..arrayIndex] == before;
    assert rgb[..arrayIndex + 3] == before + kept;
  }

  // ---------------------------------------------------------------------------
  // loadAndPrepareImage (BitmapUtils.kt:19-52)

  /** `loadAndPrepareImage`: null when decoding throws or gives null, or when the bitmap
      is not 384x384; otherwise its pixels, copied into a zeroed buffer of four bytes per
      pixel, repacked to three bytes per pixel. */
  method LoadAndPrepareImage(decoded: Decoded) returns (r: Loaded)
    ensures decoded.DecodeThrew? || decoded.NullBitmap? ==> r == Null
    ensures decoded.Bitmap? && (decoded.width != EXPECTED_WIDTH || decoded.height != EXPECTED_HEIGHT) ==>
      r == Null
    ensures decoded.Bitmap? && decoded.width == EXPECTED_WIDTH && decoded.height == EXPECTED_HEIGHT ==>
      (if |decoded.pixels| > NUM_PIXELS * 4 then r == CopyThrew
       else r == Rgb(RgbOf(decoded.pixels + Zeros(NUM_PIXELS * 4 - |decoded.pixels|))))
  {
    match decoded
    case DecodeThrew => return Null;
    case NullBitmap => return Null;
    case Bitmap(width, height, pixels) =>
      if width != EXPECTED_WIDTH || height != EXPECTED_HEIGHT {
        return Null;
      }
      if |pixels| > NUM_PIXELS * 4 {
        return CopyThrew;
      }
      var buf := new byte[NUM_PIXELS * 4]((i: nat) => if i < |pixels| then pixels[i] else 0);
      assert buf[..] == pixels + Zeros(NUM_PIXELS * 4 - |pixels|);
      var rgb := Repack(buf);
      return Rgb(rgb[..]);
  }

  /** A 384x384 image whose pixels fill the buffer comes back as `numPixels * 3` bytes,
      pixel `p`'s three bytes being the last three of its four. */
  lemma PreparedImage(pixels: seq<byte>)
    requires |pixels| == NUM_PIXELS * 4
    ensures var rgb := RgbOf(pixels + Zeros(0));
      |rgb| == NUM_PIXELS * 3 &&
      forall p: nat :: p < NUM_PIXELS ==> Triple(rgb, p) == Group(pixels, p)[1..4]
  {
    assert pixels + Zeros(0) == pixels;
    RgbOfPixels(pixels);
  }
}
