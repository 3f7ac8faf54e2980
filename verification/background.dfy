/** `remove_background`: lay a BGR raster out as the 1 x 3 x 320 x 320 input of a U^2-Net
    style saliency model, run it, and use its thresholded saliency map, resized back to the
    source size, as the alpha channel of a BGRA raster. Resizing and inference are parameters. */
module Background {
  import opened Wrappers
  import opened Raster

  /** A uint8 raster in H x W x C layout, as numpy holds it. */
  type Hwc = seq<seq<seq<Channel>>>

  /** One channel plane of a uint8 raster. */
  type Plane = seq<seq<Channel>>

  /** A float map, as the model produces and `cv2.resize` keeps it. */
  type Map2 = seq<seq<real>>

  /** A four-dimensional float32 tensor, outermost axis first. */
  type Tensor = seq<seq<seq<seq<real>>>>

  /** The model's fixed square input side. */
  const ModelSide: nat := 320

  /** The saliency cutoff; the comparison with it is strict. */
  const Cutoff: real := 0.5

  /** The foreign routines `remove_background` calls. `cv2.resize` interpolates every channel
      plane independently with the same weights, so a multi-channel resize is the plane resize
      applied per channel. Arguments are the source, the target width and height (OpenCV's
      `dsize` order) and the output row and column. */
  datatype Backend = Backend(
    resizePlane: (Plane, nat, nat, nat, nat) -> Channel,
    resizeMap: (Map2, nat, nat, nat, nat) -> real,
    /** `session.run(None, {input_name: tensor})`: the list of model outputs. */
    run: Tensor -> seq<Tensor>)

  /** One output pixel: B, G, R and alpha. */
  datatype Bgra = Bgra(b: Channel, g: Channel, r: Channel, a: Channel)

  /** `cvtColor(image_bgr, COLOR_BGR2RGB)`: channel c of the result is channel 2 - c of the source. */
  function BgrToRgb(img: Image): (rgb: Hwc)
    ensures |rgb| == |img|
    ensures forall i :: 0 <= i < |img| ==> |rgb[i]| == |img[i]|
    ensures forall i, j :: 0 <= i < |img| && 0 <= j < |img[i]| ==> |rgb[i][j]| == 3
    ensures forall i, j, c :: 0 <= i < |img| && 0 <= j < |img[i]| && 0 <= c < 3 ==>
              rgb[i][j][c] == ChannelOf(img[i][j], 2 - c)
  {
    seq(|img|, i requires 0 <= i < |img| =>
      seq(|img[i]|, j requires 0 <= j < |img[i]| => [img[i][j].r, img[i][j].g, img[i][j].b]))
  }

  /** Channel `c` of an H x W x C raster, as `hwc[:, :, c]`. */
  function PlaneOf(hwc: Hwc, c: nat): (p: Plane)
    ensures |p| == |hwc|
    ensures forall i :: 0 <= i < |hwc| ==> |p[i]| == |hwc[i]|
    ensures forall i, j :: 0 <= i < |hwc| && 0 <= j < |hwc[i]| && c < |hwc[i][j]| ==> p[i][j] == hwc[i][j][c]
  {
    seq(|hwc|, i requires 0 <= i < |hwc| =>
      seq(|hwc[i]|, j requires 0 <= j < |hwc[i]| => if c < |hwc[i][j]| then hwc[i][j][c] else 0))
  }

  /** Channel plane `c` of a BGR raster (0 = B, 1 = G, 2 = R). */
  function BgrPlane(img: Image, c: nat): (p: Plane)
    requires c < 3
    ensures |p| == |img|
    ensures forall i :: 0 <= i < |img| ==> |p[i]| == |img[i]|
    ensures forall i, j :: 0 <= i < |img| && 0 <= j < |img[i]| ==> p[i][j] == ChannelOf(img[i][j], c)
  {
    seq(|img|, i requires 0 <= i < |img| =>
      seq(|img[i]|, j requires 0 <= j < |img[i]| => ChannelOf(img[i][j], c)))
  }

  /** Plane c of the RGB conversion is plane 2 - c of the BGR source. */
  lemma RgbPlaneIsReversedBgrPlane(img: Image, c: nat)
    requires c < 3
    ensures PlaneOf(BgrToRgb(img), c) == BgrPlane(img, 2 - c)
  {
    var rgb := BgrToRgb(img);
    var p := PlaneOf(rgb, c);
    var q := BgrPlane(img, 2 - c);
    assert |p| == |q|;
    forall i | 0 <= i < |p|
      ensures p[i] == q[i]
    {
      assert |p[i]| == |q[i]|;
    }
  }

  /** `cv2.resize(hwc, (w, h))` of a three-channel raster. */
  function Resize3(be: Backend, hwc: Hwc, w: nat, h: nat): (r: Hwc)
    ensures |r| == h
    ensures forall y :: 0 <= y < h ==> |r[y]| == w
    ensures forall y, x :: 0 <= y < h && 0 <= x < w ==> |r[y][x]| == 3
    ensures forall y, x, c :: 0 <= y < h && 0 <= x < w && 0 <= c < 3 ==>
              r[y][x][c] == be.resizePlane(PlaneOf(hwc, c), w, h, y, x)
  {
    seq(h, (y: nat) => seq(w, (x: nat) => seq<Channel>(3, (c: nat) => be.resizePlane(PlaneOf(hwc, c), w, h, y, x))))
  }

  /** Steps 3 and 4: divide by 255, transpose HWC to CHW and add the batch axis. */
  function ToInputTensor(small: Hwc): (t: Tensor)
    requires |small| == ModelSide
    requires forall y :: 0 <= y < ModelSide ==> |small[y]| == ModelSide
    requires forall y, x :: 0 <= y < ModelSide && 0 <= x < ModelSide ==> |small[y][x]| == 3
    ensures |t| == 1 && |t[0]| == 3
    ensures forall c :: 0 <= c < 3 ==> |t[0][c]| == ModelSide
    ensures forall c, y :: 0 <= c < 3 && 0 <= y < ModelSide ==> |t[0][c][y]| == ModelSide
    ensures forall c, y, x :: 0 <= c < 3 && 0 <= y < ModelSide && 0 <= x < ModelSide ==>
              t[0][c][y][x] * 255.0 == small[y][x][c] as real
  {
    [seq(3, (c: nat) requires c < 3 =>
       seq(ModelSide, (y: nat) requires y < ModelSide =>
         seq(ModelSide, (x: nat) requires x < ModelSide => small[y][x][c] as real / 255.0)))]
  }

  /** Steps 1 to 4: the model input built from a BGR raster of any size. */
  function Preprocess(be: Backend, img: Image): (t: Tensor)
    ensures |t| == 1 && |t[0]| == 3
    ensures forall c :: 0 <= c < 3 ==> |t[0][c]| == ModelSide
    ensures forall c, y :: 0 <= c < 3 && 0 <= y < ModelSide ==> |t[0][c][y]| == ModelSide
    ensures forall c, y, x :: 0 <= c < 3 && 0 <= y < ModelSide && 0 <= x < ModelSide ==>
              0.0 <= t[0][c][y][x] <= 1.0
  {
    ToInputTensor(Resize3(be, BgrToRgb(img), ModelSide, ModelSide))
  }

  /** Channel c of the input tensor is the resized source plane 2 - c scaled to [0, 1]: channel 0
      is the source's red plane (BGR index 2). */
  lemma PreprocessLayout(be: Backend, img: Image, c: nat, y: nat, x: nat)
    requires c < 3 && y < ModelSide && x < ModelSide
    ensures Preprocess(be, img)[0][c][y][x] * 255.0
            == be.resizePlane(BgrPlane(img, 2 - c), ModelSide, ModelSide, y, x) as real
  {
    RgbPlaneIsReversedBgrPlane(img, c);
  }

  /** `session.run(..)[0][0][0]`: the first channel of the first batch item of the first output,
      absent when an axis is empty (numpy raises) or the map is empty (`cv2.resize` raises). */
  function Prediction(outs: seq<Tensor>): (p: Option<Map2>)
    ensures p.Some? <==> |outs| > 0 && |outs[0]| > 0 && |outs[0][0]| > 0
                         && |outs[0][0][0]| > 0 && |outs[0][0][0][0]| > 0
    ensures p.Some? ==> p.value == outs[0][0][0]
  {
    if |outs| > 0 && |outs[0]| > 0 && |outs[0][0]| > 0 then
      var m := outs[0][0][0];
      if |m| > 0 && |m[0]| > 0 then Some(m) else None
    else None
  }

  /** `(pred > 0.5).astype(np.uint8) * 255`. */
  function Mask(pred: Map2): (m: Plane)
    ensures |m| == |pred|
    ensures forall y :: 0 <= y < |pred| ==> |m[y]| == |pred[y]|
    ensures forall y, x :: 0 <= y < |pred| && 0 <= x < |pred[y]| ==> (m[y][x] == 255 <==> pred[y][x] > Cutoff)
    ensures forall y, x :: 0 <= y < |pred| && 0 <= x < |pred[y]| ==> (m[y][x] == 0 <==> pred[y][x] <= Cutoff)
  {
    seq(|pred|, y requires 0 <= y < |pred| =>
      seq(|pred[y]|, x requires 0 <= x < |pred[y]| => if pred[y][x] > Cutoff then 255 else 0))
  }

  /** A saliency of exactly 0.5 is background. */
  lemma CutoffIsBackground()
    ensures Mask([[0.5]]) == [[0]]
  {
    var m := Mask([[0.5]]);
    assert |m| == 1 && |m[0]| == 1;
    assert m[0][0] == 0;
    assert m[0] == [0];
  }

  /** `cv2.merge((b, g, r, mask))`: the source channels unchanged, the mask as the fourth. */
  function Merge(img: Image, mask: Plane): (r: seq<seq<Bgra>>)
    requires |mask| == |img| && forall y :: 0 <= y < |img| ==> |mask[y]| == |img[y]|
    ensures |r| == |img| && forall y :: 0 <= y < |img| ==> |r[y]| == |img[y]|
    ensures forall y, x :: 0 <= y < |img| && 0 <= x < |img[y]| ==>
              && r[y][x].b == img[y][x].b && r[y][x].g == img[y][x].g && r[y][x].r == img[y][x].r
              && r[y][x].a == mask[y][x]
  {
    seq(|img|, y requires 0 <= y < |img| =>
      seq(|img[y]|, x requires 0 <= x < |img[y]| =>
        Bgra(img[y][x].b, img[y][x].g, img[y][x].r, mask[y][x])))
  }

  /** `cv2.resize(pred, (W, H))`: the saliency map at the source size. */
  function ResizeMap(be: Backend, pred: Map2, w: nat, h: nat): (r: Map2)
    ensures |r| == h && forall y :: 0 <= y < h ==> |r[y]| == w
    ensures forall y, x :: 0 <= y < h && 0 <= x < w ==> r[y][x] == be.resizeMap(pred, w, h, y, x)
  {
    seq(h, (y: nat) => seq(w, (x: nat) => be.resizeMap(pred, w, h, y, x)))
  }

  /** `remove_background(image_bgr, session)`; `None` stands for the exception raised when the
      model output has no first map. The source raster must be non-empty, as `cvtColor` demands. */
  function RemoveBackground(be: Backend, img: Image): (r: Option<seq<seq<Bgra>>>)
    requires Rectangular(img) && Height(img) > 0 && Width(img) > 0
    ensures r.None? <==> Prediction(be.run(Preprocess(be, img))).None?
    ensures r.Some? ==> |r.value| == Height(img) && forall y :: 0 <= y < Height(img) ==> |r.value[y]| == Width(img)
    ensures r.Some? ==> forall y, x :: 0 <= y < Height(img) && 0 <= x < Width(img) ==>
              && r.value[y][x].b == img[y][x].b && r.value[y][x].g == img[y][x].g && r.value[y][x].r == img[y][x].r
              && (r.value[y][x].a == 255 <==>
                  be.resizeMap(Prediction(be.run(Preprocess(be, img))).value, Width(img), Height(img), y, x) > Cutoff)
              && (r.value[y][x].a == 0 || r.value[y][x].a == 255)
  {
    var h := Height(img);
    var w := Width(img);
    match Prediction(be.run(Preprocess(be, img)))
    case None => None
    case Some(pred) =>
      var full := ResizeMap(be, pred, w, h);
      var mask := Mask(full);
      Some(Merge(img, mask))
  }

  /** Only the first map of the first output matters: two models that agree on it give the same
      result, whatever else they output. */
  lemma OnlyFirstMapMatters(be1: Backend, be2: Backend, img: Image)
    requires Rectangular(img) && Height(img) > 0 && Width(img) > 0
    requires be1.resizePlane == be2.resizePlane && be1.resizeMap == be2.resizeMap
    requires Prediction(be1.run(Preprocess(be1, img))) == Prediction(be2.run(Preprocess(be2, img)))
    ensures RemoveBackground(be1, img) == RemoveBackground(be2, img)
  {
    assert Preprocess(be1, img) == Preprocess(be2, img);
  }
}
