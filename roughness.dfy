/**
 * The roughness map of the globe: the specular texture's RGBA pixels with
 * red inverted and copied to green and blue, so that shiny oceans become
 * smooth and dull land rough. Alpha is kept.
 */
module Roughness {
  import opened Base

  /** One channel of a canvas pixel (a Uint8ClampedArray element). */
  newtype byte = x: int | 0 <= x < 256

  /**
   * The roughness value of element `j`: within each group of four (R, G, B,
   * A) the first three become 255 minus the group's red, alpha is kept.
   */
  function InvertedAt(s: seq<byte>, j: nat): byte
    requires j < |s|
  {
    if j % 4 < 3 then 255 - s[j - j % 4] else s[j]
  }

  /** The whole pixel buffer after the roughness pass. */
  function InvertedPixels(s: seq<byte>): (r: seq<byte>)
    ensures |r| == |s|
    ensures forall j :: 0 <= j < |s| ==> r[j] == InvertedAt(s, j)
  {
    seq(|s|, j requires 0 <= j < |s| => InvertedAt(s, j))
  }

  /**
   * The pixel loop of `createRoughnessMap`, in place: `i` walks the buffer in
   * steps of four, reads the red channel and writes its inverse to red, green
   * and blue. Writes past the end of a typed array are ignored, which the
   * guards model for a buffer whose length is not a multiple of four.
   */
  method InvertRoughness(data: array<byte>)
    modifies data
    ensures data[..] == InvertedPixels(old(data[..]))
  {
    ghost var s := data[..];
    var i := 0;
    while i < data.Length
      invariant 0 <= i && i % 4 == 0
      invariant i <= data.Length + 3
      invariant forall j :: 0 <= j < data.Length && j < i ==> data[j] == InvertedAt(s, j)
      invariant forall j :: i <= j < data.Length ==> data[j] == s[j]
      decreases data.Length - i
    {
      var value := data[i];
      var inverted := 255 - value;
      data[i] := inverted;
      if i + 1 < data.Length {
        data[i + 1] := inverted;
      }
      if i + 2 < data.Length {
        data[i + 2] := inverted;
      }
      forall j | i <= j < data.Length && j < i + 4
        ensures data[j] == InvertedAt(s, j)
      {
        SameGroup(i, j);
      }
      i := i + 4;
    }
  }

  /** The elements `i` to `i + 3` of a buffer form the pixel that starts at `i`. */
  lemma SameGroup(i: nat, j: nat)
    requires i % 4 == 0 && i <= j < i + 4
    ensures j % 4 == j - i && j - j % 4 == i
  {
  }

  /**
   * `createRoughnessMap`: no roughness map without a loaded image; otherwise a
   * new buffer holding the image's pixels after the roughness pass.
   */
  method CreateRoughnessMap(image: Option<seq<byte>>) returns (r: Option<array<byte>>)
    ensures image.None? ==> r.None?
    ensures image.Some? ==> r.Some? && fresh(r.value) && r.value[..] == InvertedPixels(image.value)
  {
    if image.None? {
      return None;
    }
    var pixels := image.value;
    var data := new byte[|pixels|](j requires 0 <= j < |pixels| => pixels[j]);
    assert data[..] == pixels;
    InvertRoughness(data);
    r := Some(data);
  }

  /**
   * What the pass promises about each pixel: alpha is kept, and red, green
   * and blue all carry 255 minus the old red.
   */
  lemma PixelChannels(s: seq<byte>, p: nat)
    requires 4 * p + 3 < |s|
    ensures var r := InvertedPixels(s);
      && r[4 * p] == 255 - s[4 * p] && r[4 * p + 1] == 255 - s[4 * p]
      && r[4 * p + 2] == 255 - s[4 * p] && r[4 * p + 3] == s[4 * p + 3]
  {
    var r := InvertedPixels(s);
    assert (4 * p + 1) % 4 == 1 && (4 * p + 2) % 4 == 2 && (4 * p + 3) % 4 == 3 && (4 * p) % 4 == 0;
  }

  /** The result is grey: within a pixel, green and blue equal red. */
  lemma Grey(s: seq<byte>, j: nat)
    requires j < |s| && j % 4 < 3
    ensures InvertedPixels(s)[j] == InvertedPixels(s)[j - j % 4]
  {
  }

  /**
   * Running the pass twice restores red in every colour channel (green and
   * blue become copies of the original red) and keeps alpha: the inversion
   * undoes itself.
   */
  lemma TwiceRestoresRed(s: seq<byte>, j: nat)
    requires j < |s|
    ensures InvertedPixels(InvertedPixels(s))[j] == (if j % 4 < 3 then s[j - j % 4] else s[j])
  {
    var once := InvertedPixels(s);
    if j % 4 < 3 {
      var k := j - j % 4;
      assert k % 4 == 0;
      assert once[k] == 255 - s[k];
    }
  }

  /** A grey image, one whose colour channels already agree, comes back unchanged after two passes. */
  lemma TwiceOnGrey(s: seq<byte>)
    requires forall j :: 0 <= j < |s| && j % 4 < 3 ==> s[j] == s[j - j % 4]
    ensures InvertedPixels(InvertedPixels(s)) == s
  {
    forall j | 0 <= j < |s|
      ensures InvertedPixels(InvertedPixels(s))[j] == s[j]
    {
      TwiceRestoresRed(s, j);
    }
  }
}
