/**
 * The image of `src/image.rs`: a frame size and its pixels, and the byte
 * buffer handed to the PNG encoder.
 */
module Image {
  import opened Colors

  datatype Image = Image(dimension: (nat, nat), pixels: seq<Color>)

  /** `Image::new`: keeps the size and the pixels exactly as given. */
  function New(width: nat, height: nat, pixels: seq<Color>): (img: Image)
    ensures img.dimension == (width, height) && img.pixels == pixels
  {
    Image((width, height), pixels)
  }

  /**
   * `Image::write_to_file`, up to the PNG encoding: the RGBA8 bytes of the
   * pixels, four per pixel, in pixel order.
   */
  method WriteToFile(img: Image, encode: Rgba8Encoder) returns (buffer: seq<byte>)
    ensures buffer == Flatten(img.pixels, encode)
    ensures |buffer| == 4 * |img.pixels|
    ensures forall k :: 0 <= k < |img.pixels| ==> buffer[4 * k .. 4 * k + 4] == Bytes(encode(img.pixels[k]))
  {
    buffer := [];
    for k := 0 to |img.pixels|
      invariant buffer == Flatten(img.pixels[..k], encode)
    {
      assert img.pixels[..k + 1] == img.pixels[..k] + [img.pixels[k]];
      FlattenAppend(img.pixels[..k], img.pixels[k], encode);
      buffer := buffer + Bytes(encode(img.pixels[k]));
    }
    assert img.pixels[..|img.pixels|] == img.pixels;
    FlattenLength(img.pixels, encode);
    forall k | 0 <= k < |img.pixels|
      ensures buffer[4 * k .. 4 * k + 4] == Bytes(encode(img.pixels[k]))
    {
      FlattenAt(img.pixels, encode, k);
    }
  }
}
