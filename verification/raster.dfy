/** Rasters as the editor holds them: numpy arrays of shape H x W x 3, uint8, channels in
    OpenCV's B, G, R order. */
module Raster {

  /** One uint8 sample. */
  type Channel = v: int | 0 <= v < 256

  /** One BGR pixel; `b` is channel index 0, `r` is channel index 2. */
  datatype Pixel = Pixel(b: Channel, g: Channel, r: Channel)

  /** Rows of pixels, top row first. */
  type Image = seq<seq<Pixel>>

  /** The sample of channel `c` (0 = B, 1 = G, 2 = R), as numpy indexes `img[y, x, c]`. */
  function ChannelOf(p: Pixel, c: nat): Channel
    requires c < 3
  {
    if c == 0 then p.b else if c == 1 then p.g else p.r
  }

  function Height(img: Image): nat {
    |img|
  }

  /** `img.shape[1]`; a raster with no rows reports width 0 here. */
  function Width(img: Image): nat {
    if |img| == 0 then 0 else |img[0]|
  }

  /** Every row has the same length, as in a numpy array. */
  predicate Rectangular(img: Image) {
    forall i :: 0 <= i < |img| ==> |img[i]| == Width(img)
  }

  predicate SameShape(a: Image, b: Image) {
    Rectangular(a) && Rectangular(b) && Height(a) == Height(b) && Width(a) == Width(b)
  }

  /** The raster of height `h` and width `w` whose pixel at row `i`, column `j` is `at(i, j)`.
      Every OpenCV routine whose pixel values are not modelled is expressed through this. */
  function Build(h: nat, w: nat, at: (nat, nat) -> Pixel): (r: Image)
    ensures Height(r) == h && Rectangular(r)
    ensures h > 0 ==> Width(r) == w
    ensures forall i, j :: 0 <= i < h && 0 <= j < w ==> r[i][j] == at(i, j)
  {
    seq(h, (i: nat) => seq(w, (j: nat) => at(i, j)))
  }

  /** A per-pixel operation applied at every position. */
  function MapPixels(img: Image, f: Pixel -> Pixel): (r: Image)
    ensures |r| == |img|
    ensures forall i :: 0 <= i < |img| ==> |r[i]| == |img[i]|
    ensures forall i, j :: 0 <= i < |img| && 0 <= j < |img[i]| ==> r[i][j] == f(img[i][j])
  {
    seq(|img|, i requires 0 <= i < |img| => seq(|img[i]|, j requires 0 <= j < |img[i]| => f(img[i][j])))
  }

  lemma MapPixelsKeepsShape(img: Image, f: Pixel -> Pixel)
    requires Rectangular(img)
    ensures SameShape(MapPixels(img, f), img)
  {
  }

  /** `cv2.bitwise_not` on one pixel: each uint8 sample v becomes 255 - v. */
  function Complement(p: Pixel): (q: Pixel)
    ensures q.b + p.b == 255 && q.g + p.g == 255 && q.r + p.r == 255
  {
    Pixel(255 - p.b, 255 - p.g, 255 - p.r)
  }

  /** `cv2.bitwise_not` on a whole raster (`apply_negative`). */
  function Negative(img: Image): (r: Image)
    ensures |r| == |img|
    ensures forall i :: 0 <= i < |img| ==> |r[i]| == |img[i]|
    ensures forall i, j, c :: 0 <= i < |img| && 0 <= j < |img[i]| && 0 <= c < 3 ==>
              ChannelOf(r[i][j], c) == 255 - ChannelOf(img[i][j], c)
  {
    MapPixels(img, Complement)
  }

  /** The negative of the negative is the raster itself. */
  lemma NegativeInvolution(img: Image)
    ensures Negative(Negative(img)) == img
  {
    var n := Negative(Negative(img));
    assert |n| == |img|;
    forall i | 0 <= i < |img|
      ensures n[i] == img[i]
    {
      assert |n[i]| == |img[i]|;
      forall j | 0 <= j < |img[i]|
        ensures n[i][j] == img[i][j]
      {
        assert ChannelOf(n[i][j], 0) == ChannelOf(img[i][j], 0);
        assert ChannelOf(n[i][j], 1) == ChannelOf(img[i][j], 1);
        assert ChannelOf(n[i][j], 2) == ChannelOf(img[i][j], 2);
      }
    }
  }

  /** Saturation to the uint8 range. */
  function Clamp(v: int): (c: Channel)
    ensures 0 <= v < 256 ==> c == v
    ensures v < 0 ==> c == 0
    ensures 256 <= v ==> c == 255
  {
    if v < 0 then 0 else if v > 255 then 255 else v
  }

  /** `cv2.convertScaleAbs(src, alpha=1, beta)` on one sample: the absolute value of v + beta,
      saturated to 255. */
  function ScaleAbs(v: Channel, beta: int): (c: Channel)
    ensures v + beta >= 0 ==> c == Clamp(v + beta)
    ensures v + beta < 0 ==> c == Clamp(-(v + beta))
  {
    var t := v + beta;
    if t < 0 then Clamp(-t) else Clamp(t)
  }

  /** `adjust_brightness`'s preview raster. */
  function Brightness(img: Image, beta: int): (r: Image)
    ensures |r| == |img|
    ensures forall i :: 0 <= i < |img| ==> |r[i]| == |img[i]|
    ensures forall i, j, c :: 0 <= i < |img| && 0 <= j < |img[i]| && 0 <= c < 3 ==>
              ChannelOf(r[i][j], c) == ScaleAbs(ChannelOf(img[i][j], c), beta)
  {
    MapPixels(img, (p: Pixel) => Pixel(ScaleAbs(p.b, beta), ScaleAbs(p.g, beta), ScaleAbs(p.r, beta)))
  }

  /** Against a plain saturating add (what a brightness control is expected to do), the
      absolute value never darkens: the result is at least the saturated sum, and equals it
      exactly when the sum is not negative. */
  lemma ScaleAbsAgainstSaturatingAdd(v: Channel, beta: int)
    ensures ScaleAbs(v, beta) >= Clamp(v + beta)
    ensures ScaleAbs(v, beta) == Clamp(v + beta) <==> v + beta >= 0
  {
  }

  /** Slider position 0 previews the raster unchanged. */
  lemma {:induction false} BrightnessZeroIsIdentity(img: Image)
    ensures Brightness(img, 0) == img
  {
    var r := Brightness(img, 0);
    assert |r| == |img|;
    forall i | 0 <= i < |img|
      ensures r[i] == img[i]
    {
      assert |r[i]| == |img[i]|;
      forall j | 0 <= j < |img[i]|
        ensures r[i][j] == img[i][j]
      {
        var p := img[i][j];
        assert ChannelOf(r[i][j], 0) == ScaleAbs(ChannelOf(p, 0), 0) == p.b;
        assert ChannelOf(r[i][j], 1) == ScaleAbs(ChannelOf(p, 1), 0) == p.g;
        assert ChannelOf(r[i][j], 2) == ScaleAbs(ChannelOf(p, 2), 0) == p.r;
      }
    }
  }

  /** Because of the absolute value, a darkening slider position can brighten a dark sample:
      a black sample at slider -100 previews as 100, not 0. */
  lemma ScaleAbsReflectsBelowZero()
    ensures ScaleAbs(0, -100) == 100
    ensures ScaleAbs(30, -100) > ScaleAbs(60, -100)
  {
  }
}
