/** Images as OpenCV holds them: an H x W x C array of unsigned bytes,
    flattened row by row into a sequence of pixels, each pixel the sequence
    of its channel values. A single-channel mask is a plane: one byte per
    pixel, in the same order. */
module Pixels {
  import opened Outcomes

  type Byte = bv8
  type Pixel = seq<Byte>
  type Image = seq<Pixel>
  type Plane = seq<Byte>

  // ---------------------------------------------------------------------
  // Channel order: `img[..., ::-1]`

  function Reverse(p: Pixel): (r: Pixel)
    ensures |r| == |p|
    ensures forall c | 0 <= c < |p| :: r[c] == p[|p| - 1 - c]
  {
    seq(|p|, c requires 0 <= c < |p| => p[|p| - 1 - c])
  }

  /** Reverses the channel axis of every pixel (BGR <-> RGB). */
  function ReverseChannels(img: Image): (r: Image)
    ensures |r| == |img|
    ensures forall i | 0 <= i < |img| :: r[i] == Reverse(img[i])
  {
    seq(|img|, i requires 0 <= i < |img| => Reverse(img[i]))
  }

  lemma ReverseInvolution(p: Pixel)
    ensures Reverse(Reverse(p)) == p
  {
    var q := Reverse(Reverse(p));
    forall c | 0 <= c < |p|
      ensures q[c] == p[c]
    {
      assert q[c] == Reverse(p)[|p| - 1 - c];
    }
  }

  /** Reversing the channels twice gives the image back. */
  lemma ReverseChannelsInvolution(img: Image)
    ensures ReverseChannels(ReverseChannels(img)) == img
  {
    var r := ReverseChannels(ReverseChannels(img));
    forall i | 0 <= i < |img|
      ensures r[i] == img[i]
    {
      ReverseInvolution(img[i]);
    }
  }

  // ---------------------------------------------------------------------
  // `cv2.bitwise_and(x, x, mask=m)`: x where m is nonzero, zero elsewhere

  function Zeros(n: nat): (p: seq<Byte>)
    ensures |p| == n && forall c | 0 <= c < n :: p[c] == 0
  {
    seq(n, _ => 0)
  }

  predicate IsZero(p: Pixel) {
    forall c | 0 <= c < |p| :: p[c] == 0
  }

  /** Keeps the pixels of `img` under the nonzero entries of `m`; the mask
      must have one entry per pixel. */
  function MaskImage(img: Image, m: Plane): (r: Result<Image>)
    ensures r.Ok? <==> |img| == |m|
    ensures r.Err? ==> r.error == SizeMismatch
    ensures r.Ok? ==> |r.value| == |img|
    ensures r.Ok? ==> forall i | 0 <= i < |img| && m[i] != 0 :: r.value[i] == img[i]
    ensures r.Ok? ==> forall i | 0 <= i < |img| && m[i] == 0 ::
                        |r.value[i]| == |img[i]| && IsZero(r.value[i])
  {
    if |img| != |m| then Err(SizeMismatch)
    else Ok(seq(|img|, i requires 0 <= i < |img| => if m[i] != 0 then img[i] else Zeros(|img[i]|)))
  }

  /** The same operation on a single-channel plane. */
  function MaskPlane(p: Plane, m: Plane): (r: Result<Plane>)
    ensures r.Ok? <==> |p| == |m|
    ensures r.Err? ==> r.error == SizeMismatch
    ensures r.Ok? ==> |r.value| == |p|
    ensures r.Ok? ==> forall i | 0 <= i < |p| :: r.value[i] == (if m[i] != 0 then p[i] else 0)
  {
    if |p| != |m| then Err(SizeMismatch)
    else Ok(seq(|p|, i requires 0 <= i < |p| => if m[i] != 0 then p[i] else 0))
  }

  /** Masking twice with the same mask is masking once. */
  lemma MaskImageIdempotent(img: Image, m: Plane)
    requires |img| == |m|
    ensures MaskImage(MaskImage(img, m).value, m) == MaskImage(img, m)
  {
    var once := MaskImage(img, m).value;
    var twice := MaskImage(once, m).value;
    forall i | 0 <= i < |img|
      ensures twice[i] == once[i]
    {
      if m[i] == 0 {
        assert once[i] == Zeros(|img[i]|) && twice[i] == Zeros(|once[i]|);
      }
    }
    assert twice == once;
  }

  /** A mask that is nonzero everywhere keeps the whole image. */
  lemma FullMaskKeepsImage(img: Image, m: Plane)
    requires |img| == |m| && forall i | 0 <= i < |m| :: m[i] != 0
    ensures MaskImage(img, m) == Ok(img)
  {
    var r := MaskImage(img, m).value;
    assert forall i | 0 <= i < |img| :: r[i] == img[i];
    assert r == img;
  }

  // ---------------------------------------------------------------------
  // numpy `a | b` on two masks

  function OrPlane(a: Plane, b: Plane): (r: Result<Plane>)
    ensures r.Ok? <==> |a| == |b|
    ensures r.Err? ==> r.error == SizeMismatch
    ensures r.Ok? ==> |r.value| == |a|
    ensures r.Ok? ==> forall i | 0 <= i < |a| :: (r.value[i] == 0 <==> a[i] == 0 && b[i] == 0)
  {
    if |a| != |b| then Err(SizeMismatch)
    else Ok(seq(|a|, i requires 0 <= i < |a| => a[i] | b[i]))
  }

  // ---------------------------------------------------------------------
  // `cv2.split` unpacked into exactly three planes, and its inverse

  datatype Planes = Planes(wound: Plane, body: Plane, background: Plane)

  predicate HasChannels(img: Image, n: nat) {
    forall i | 0 <= i < |img| :: |img[i]| == n
  }

  /** Unpacking `cv2.split(seg)` into three names fails unless every pixel
      has exactly three channels. */
  function Split(seg: Image): (r: Result<Planes>)
    ensures r.Ok? <==> HasChannels(seg, 3)
    ensures r.Err? ==> r.error == ChannelCountMismatch
    ensures r.Ok? ==> |r.value.wound| == |r.value.body| == |r.value.background| == |seg|
  {
    if !HasChannels(seg, 3) then Err(ChannelCountMismatch)
    else Ok(Planes(
      seq(|seg|, i requires 0 <= i < |seg| && |seg[i]| == 3 => seg[i][0]),
      seq(|seg|, i requires 0 <= i < |seg| && |seg[i]| == 3 => seg[i][1]),
      seq(|seg|, i requires 0 <= i < |seg| && |seg[i]| == 3 => seg[i][2])))
  }

  /** `cv2.merge` of three equally sized planes. */
  function Merge(p: Planes): (img: Image)
    requires |p.wound| == |p.body| == |p.background|
    ensures |img| == |p.wound| && HasChannels(img, 3)
  {
    seq(|p.wound|, i requires 0 <= i < |p.wound| => [p.wound[i], p.body[i], p.background[i]])
  }

  /** Merging what split produced gives the segmentation back. */
  lemma MergeSplit(seg: Image)
    requires Split(seg).Ok?
    ensures Merge(Split(seg).value) == seg
  {
    var p := Split(seg).value;
    var m := Merge(p);
    forall i | 0 <= i < |seg|
      ensures m[i] == seg[i]
    {
      assert m[i] == [seg[i][0], seg[i][1], seg[i][2]];
    }
  }

  /** Splitting a merge gives the three planes back. */
  lemma SplitMerge(p: Planes)
    requires |p.wound| == |p.body| == |p.background|
    ensures Split(Merge(p)) == Ok(p)
  {
    var m := Merge(p);
    var q := Split(m).value;
    assert q.wound == p.wound && q.body == p.body && q.background == p.background;
  }
}
