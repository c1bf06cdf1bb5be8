/**
 * Linear RGBA colours and their 8-bit encoding.
 *
 * `Color::as_rgba8_bytes` belongs to the renderer's library; it is passed in
 * as an `Rgba8Encoder`. Its result has exactly four bytes, which the
 * `Rgba8` datatype makes explicit. `Flatten` is the byte buffer that both
 * the renderer and the image writer build from a pixel sequence.
 */
module Colors {

  datatype Color = Color(r: real, g: real, b: real, a: real)

  newtype byte = x: int | 0 <= x < 256

  datatype Rgba8 = Rgba8(r: byte, g: byte, b: byte, a: byte)

  type Rgba8Encoder = Color -> Rgba8

  function Bytes(p: Rgba8): (bs: seq<byte>)
    ensures |bs| == 4
  {
    [p.r, p.g, p.b, p.a]
  }

  /** The encoded pixels, four bytes each, in pixel order. */
  function Flatten(pixels: seq<Color>, encode: Rgba8Encoder): seq<byte> {
    if |pixels| == 0 then [] else Bytes(encode(pixels[0])) + Flatten(pixels[1..], encode)
  }

  /** Appending a pixel appends its four bytes and leaves the earlier bytes alone. */
  lemma {:induction false} FlattenAppend(pixels: seq<Color>, c: Color, encode: Rgba8Encoder)
    ensures Flatten(pixels + [c], encode) == Flatten(pixels, encode) + Bytes(encode(c))
  {
    if |pixels| == 0 {
      assert pixels + [c] == [c];
    } else {
      assert (pixels + [c])[1..] == pixels[1..] + [c];
      FlattenAppend(pixels[1..], c, encode);
    }
  }

  lemma {:induction false} FlattenLength(pixels: seq<Color>, encode: Rgba8Encoder)
    ensures |Flatten(pixels, encode)| == 4 * |pixels|
  {
    if |pixels| > 0 {
      FlattenLength(pixels[1..], encode);
    }
  }

  /** Bytes `4k .. 4k+3` of the buffer are the encoding of pixel `k`. */
  lemma {:induction false} FlattenAt(pixels: seq<Color>, encode: Rgba8Encoder, k: nat)
    requires k < |pixels|
    ensures |Flatten(pixels, encode)| == 4 * |pixels|
    ensures Flatten(pixels, encode)[4 * k .. 4 * k + 4] == Bytes(encode(pixels[k]))
  {
    FlattenLength(pixels, encode);
    if k > 0 {
      FlattenAt(pixels[1..], encode, k - 1);
      var rest := Flatten(pixels[1..], encode);
      assert Flatten(pixels, encode)[4 * k .. 4 * k + 4] == rest[4 * (k - 1) .. 4 * (k - 1) + 4];
    }
  }

  /** The buffer of a prefix of the pixels is a prefix of the whole buffer. */
  lemma {:induction false} FlattenPrefix(pixels: seq<Color>, encode: Rgba8Encoder, n: nat)
    requires n <= |pixels|
    ensures Flatten(pixels[..n], encode) <= Flatten(pixels, encode)
  {
    if n > 0 {
      assert pixels[..n][1..] == pixels[1..][..n - 1];
      FlattenPrefix(pixels[1..], encode, n - 1);
    }
  }
}
