/**
 * A one-bit-per-pixel image with a position, built up by value: each
 * builder takes a bitmap and hands back a changed copy.
 */
module Bitmaps {
  /** The image bytes, their width and height in pixels, and the position
      the bitmap is drawn at. */
  datatype Bitmap = Bitmap(x: int, y: int, width: int, height: int, image: seq<bv8>)

  /** A bitmap of the given bytes and size, placed at (0, 0). */
  function New(image: seq<bv8>, width: int, height: int): (b: Bitmap)
    ensures b.image == image && b.width == width && b.height == height
    ensures b.x == 0 && b.y == 0
  {
    Bitmap(0, 0, width, height, image)
  }

  /** Every byte complemented when `invert` is set, so that set pixels become
      clear and clear ones set; otherwise the bitmap as it was. */
  function Invert(b: Bitmap, invert: bool): (r: Bitmap)
    ensures |r.image| == |b.image|
    ensures r.x == b.x && r.y == b.y && r.width == b.width && r.height == b.height
    ensures forall i :: 0 <= i < |b.image| ==>
      r.image[i] as int == if invert then 255 - b.image[i] as int else b.image[i] as int
    ensures !invert ==> r == b
  {
    b.(image := seq(|b.image|, i requires 0 <= i < |b.image| => if invert then !b.image[i] else b.image[i]))
  }

  /** The bitmap moved to (x, y), nothing else changed. */
  function At(b: Bitmap, x: int, y: int): (r: Bitmap)
    ensures r.x == x && r.y == y
    ensures r.width == b.width && r.height == b.height && r.image == b.image
  {
    b.(x := x, y := y)
  }

  /** Inverting twice gives back the original image. */
  lemma InvertTwice(b: Bitmap)
    ensures Invert(Invert(b, true), true) == b
  {
  }

  /** Inverting changes every byte. */
  lemma InvertChangesEveryByte(b: Bitmap, i: nat)
    requires i < |b.image|
    ensures Invert(b, true).image[i] != b.image[i]
  {
  }

  /** Moving and inverting do not interfere. */
  lemma AtInvertCommute(b: Bitmap, x: int, y: int, invert: bool)
    ensures Invert(At(b, x, y), invert) == At(Invert(b, invert), x, y)
  {
  }
}
