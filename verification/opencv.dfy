/** The OpenCV routines whose pixel values are not modelled. Each is a parameter of the model: a
    `Library` value supplies, for every output position, the pixel the routine would write there.
    The rasters are rebuilt from those pixels, so every routine keeps the raster's shape, which is
    all the editor relies on. */
module OpenCv {
  import opened Raster
  import opened Display

  datatype Library = Library(
    /** `cvtColor(.., COLOR_BGR2GRAY)` on one pixel. */
    luma: Pixel -> Channel,
    /** `cv2.transform` with the sepia kernel, saturated to uint8, on one pixel. */
    sepia: Pixel -> Pixel,
    /** The colour output of `pencilSketch(src, 60, 0.07, 0.03)` at (row, column). */
    sketchAt: (Image, nat, nat) -> Pixel,
    /** `cv2.line(src, pt1, pt2, colour, thickness=2)` at (row, column). */
    lineAt: (Image, Point, Point, Pixel, nat, nat) -> Pixel,
    /** `cv2.putText(src, text, org, FONT_HERSHEY_SIMPLEX, 1, colour, 2)` at (row, column). */
    textAt: (Image, string, Point, Pixel, nat, nat) -> Pixel,
    /** `GaussianBlur(src, (k, k), 0)` at (row, column). */
    blurAt: (Image, nat, nat, nat) -> Pixel)

  /** `cvtColor(cvtColor(src, BGR2GRAY), GRAY2BGR)`: every pixel becomes a grey whose three
      channels all hold the luma of the source pixel. */
  function Gray(lib: Library, img: Image): (r: Image)
    requires Rectangular(img)
    ensures SameShape(r, img)
    ensures forall i, j :: 0 <= i < |img| && 0 <= j < |img[i]| ==>
              r[i][j].b == r[i][j].g == r[i][j].r == lib.luma(img[i][j])
  {
    MapPixelsKeepsShape(img, (p: Pixel) => var v := lib.luma(p); Pixel(v, v, v));
    MapPixels(img, (p: Pixel) => var v := lib.luma(p); Pixel(v, v, v))
  }

  /** The sepia filter works pixel by pixel. */
  function Sepia(lib: Library, img: Image): (r: Image)
    requires Rectangular(img)
    ensures SameShape(r, img)
    ensures forall i, j :: 0 <= i < |img| && 0 <= j < |img[i]| ==> r[i][j] == lib.sepia(img[i][j])
  {
    MapPixelsKeepsShape(img, lib.sepia);
    MapPixels(img, lib.sepia)
  }

  function Sketch(lib: Library, img: Image): (r: Image)
    requires Rectangular(img)
    ensures SameShape(r, img)
  {
    Build(Height(img), Width(img), (i: nat, j: nat) => lib.sketchAt(img, i, j))
  }

  function Line(lib: Library, img: Image, p1: Point, p2: Point, colour: Pixel): (r: Image)
    requires Rectangular(img)
    ensures SameShape(r, img)
  {
    Build(Height(img), Width(img), (i: nat, j: nat) => lib.lineAt(img, p1, p2, colour, i, j))
  }

  function Text(lib: Library, img: Image, text: string, org: Point, colour: Pixel): (r: Image)
    requires Rectangular(img)
    ensures SameShape(r, img)
  {
    Build(Height(img), Width(img), (i: nat, j: nat) => lib.textAt(img, text, org, colour, i, j))
  }

  function Blur(lib: Library, img: Image, k: nat): (r: Image)
    requires Rectangular(img)
    ensures SameShape(r, img)
  {
    Build(Height(img), Width(img), (i: nat, j: nat) => lib.blurAt(img, k, i, j))
  }
}
