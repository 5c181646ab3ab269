/**
 The flash image and its two byte planes. A full image is 256 KiB in device
 address order; in split mode it is stored as two 128 KiB half files, the
 "low" one holding the even addresses and the "high" one the odd addresses.
 */
module Image {

  type byte = bv8

  /** Size of one half file (the `cbImage / 2` of the loader). */
  const HalfSize: nat := 128 * 1024

  /** Size of the full flash image (`cbImage`). */
  const ImageSize: nat := 256 * 1024

  /** Weaves two planes together: `low[i]` goes to address `2i`, `high[i]` to `2i + 1`. */
  function Interleave(low: seq<byte>, high: seq<byte>): (img: seq<byte>)
    requires |low| == |high|
    ensures |img| == 2 * |low|
    ensures forall i :: 0 <= i < |low| ==> img[2 * i] == low[i]
    ensures forall i :: 0 <= i < |high| ==> img[2 * i + 1] == high[i]
    decreases |low|
  {
    if |low| == 0 then []
    else
      var rest := Interleave(low[1..], high[1..]);
      assert forall i :: 1 <= i < |low| ==> rest[2 * (i - 1)] == low[i];
      assert forall i :: 1 <= i < |high| ==> rest[2 * (i - 1) + 1] == high[i];
      [low[0], high[0]] + rest
  }

  /** The bytes at even addresses of an image: its low plane. */
  function Evens(img: seq<byte>): (low: seq<byte>)
    ensures |low| == (|img| + 1) / 2
    ensures forall i :: 0 <= i < |low| ==> low[i] == img[2 * i]
    decreases |img|
  {
    if |img| == 0 then []
    else if |img| == 1 then [img[0]]
    else
      var rest := Evens(img[2..]);
      assert forall i :: 1 <= i < |rest| + 1 ==> rest[i - 1] == img[2 * i];
      [img[0]] + rest
  }

  /** The bytes at odd addresses of an image: its high plane. */
  function Odds(img: seq<byte>): (high: seq<byte>)
    ensures |high| == |img| / 2
    ensures forall i :: 0 <= i < |high| ==> high[i] == img[2 * i + 1]
    decreases |img|
  {
    if |img| < 2 then []
    else
      var rest := Odds(img[2..]);
      assert forall i :: 1 <= i < |rest| + 1 ==> rest[i - 1] == img[2 * i + 1];
      [img[1]] + rest
  }

  /** Interleaving loses nothing: the two planes come back out of the image. */
  lemma {:induction false} PlanesOfInterleave(low: seq<byte>, high: seq<byte>)
    requires |low| == |high|
    ensures Evens(Interleave(low, high)) == low
    ensures Odds(Interleave(low, high)) == high
    decreases |low|
  {
    if |low| > 0 {
      var img := Interleave(low, high);
      PlanesOfInterleave(low[1..], high[1..]);
      assert img[2..] == Interleave(low[1..], high[1..]);
    }
  }

  /** Every image of even length is the interleaving of its own two planes. */
  lemma {:induction false} InterleaveOfPlanes(img: seq<byte>)
    requires |img| % 2 == 0
    ensures |Evens(img)| == |Odds(img)|
    ensures Interleave(Evens(img), Odds(img)) == img
    decreases |img|
  {
    if |img| > 0 {
      InterleaveOfPlanes(img[2..]);
      assert Evens(img) == [img[0]] + Evens(img[2..]);
      assert Odds(img) == [img[1]] + Odds(img[2..]);
      assert img == [img[0], img[1]] + img[2..];
    }
  }

  /** Distinct pairs of planes give distinct images. */
  lemma InterleaveInjective(low1: seq<byte>, high1: seq<byte>, low2: seq<byte>, high2: seq<byte>)
    requires |low1| == |high1| && |low2| == |high2|
    requires Interleave(low1, high1) == Interleave(low2, high2)
    ensures low1 == low2 && high1 == high2
  {
    PlanesOfInterleave(low1, high1);
    PlanesOfInterleave(low2, high2);
  }

  /** A full-size image splits into exactly one pair of half-size planes. */
  lemma ImageDecomposesUniquely(img: seq<byte>)
    requires |img| == ImageSize
    ensures |Evens(img)| == HalfSize && |Odds(img)| == HalfSize
    ensures Interleave(Evens(img), Odds(img)) == img
    ensures forall low, high :: |low| == |high| && Interleave(low, high) == img ==> low == Evens(img) && high == Odds(img)
  {
    InterleaveOfPlanes(img);
    forall low, high | |low| == |high| && Interleave(low, high) == img
      ensures low == Evens(img) && high == Odds(img)
    {
      PlanesOfInterleave(low, high);
    }
  }

  /** A low plane of 0x00 bytes and a high plane of 0xFF bytes give an image alternating 0x00, 0xFF. */
  lemma AlternatingPlanes()
    ensures var img := Interleave(seq(HalfSize, _ => 0x00), seq(HalfSize, _ => 0xFF));
      |img| == ImageSize && forall k :: 0 <= k < ImageSize ==> img[k] == if k % 2 == 0 then 0x00 else 0xFF
  {
    var low: seq<byte> := seq(HalfSize, _ => 0x00);
    var high: seq<byte> := seq(HalfSize, _ => 0xFF);
    var img := Interleave(low, high);
    forall k | 0 <= k < ImageSize
      ensures img[k] == if k % 2 == 0 then 0x00 else 0xFF
    {
      var j := k / 2;
      if k % 2 == 0 {
        assert img[2 * j] == low[j];
      } else {
        assert img[2 * j + 1] == high[j];
      }
    }
  }
}
