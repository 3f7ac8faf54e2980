/** The display half of `display_image` and the canvas-to-source coordinate mapping.
    The canvas is at most 600 x 400; Python's float arithmetic is modelled with exact reals. */
module Display {

  const CanvasWidth: nat := 600
  const CanvasHeight: nat := 400

  /** A point as `(x, y)`: x is the column, y the row. Canvas points come from Tk events; a drag
      that leaves the canvas gives negative values. */
  datatype Point = Point(x: int, y: int)

  /** Python's `int(x)` on a float: truncation toward zero. */
  function Trunc(x: real): (n: int)
    ensures 0.0 <= x ==> n as real <= x < n as real + 1.0
    ensures x < 0.0 ==> n as real - 1.0 < x <= n as real
  {
    if x >= 0.0 then x.Floor else -((-x).Floor)
  }

  /** `scale = min(600/w, 400/h) if w > 600 or h > 400 else 1`. */
  function Scale(w: nat, h: nat): (s: real)
    requires w > 0 && h > 0
    ensures 0.0 < s <= 1.0
    ensures s == 1.0 <==> w <= CanvasWidth && h <= CanvasHeight
    ensures s * w as real <= CanvasWidth as real && s * h as real <= CanvasHeight as real
    ensures s == 1.0 || s * w as real == CanvasWidth as real || s * h as real == CanvasHeight as real
  {
    if w > CanvasWidth || h > CanvasHeight then
      var sw := CanvasWidth as real / w as real;
      var sh := CanvasHeight as real / h as real;
      assert sw * w as real == CanvasWidth as real;
      assert sh * h as real == CanvasHeight as real;
      assert w > CanvasWidth ==> sw < 1.0;
      assert h > CanvasHeight ==> sh < 1.0;
      if sw <= sh then sw else sh
    else
      1.0
  }

  /** `(new_w, new_h)`: the size the raster is drawn at on the canvas. */
  datatype Size = Size(width: nat, height: nat)

  function ShownSize(w: nat, h: nat): (d: Size)
    requires w > 0 && h > 0
    ensures d.width <= CanvasWidth && d.height <= CanvasHeight
    ensures d.width <= w && d.height <= h
    ensures w <= CanvasWidth && h <= CanvasHeight ==> d == Size(w, h)
    ensures d == Size(w, h) || d.width == CanvasWidth || d.height == CanvasHeight
  {
    var s := Scale(w, h);
    ScaledDown(w, s);
    ScaledDown(h, s);
    Size(Trunc(w as real * s), Trunc(h as real * s))
  }

  lemma ScaledDown(n: nat, s: real)
    requires 0.0 < s <= 1.0
    ensures 0 <= Trunc(n as real * s) <= n
  {
    assert n as real * s <= n as real;
  }

  /** The raster can be shown: OpenCV and Tk fail on a zero-sized raster or a zero target size.
      Stated on the integers; `ShowableIffShownSizePositive` relates it to the shown size. */
  predicate Showable(w: nat, h: nat) {
    w > 0 && h > 0 && w <= CanvasWidth * h && h <= CanvasHeight * w
  }

  lemma TruncPositive(x: real)
    requires x >= 0.0
    ensures Trunc(x) > 0 <==> x >= 1.0
  {
  }

  lemma QuotientAtLeastOne(a: real, b: real)
    requires b > 0.0
    ensures a / b >= 1.0 <==> a >= b
  {
    assert (a / b) * b == a;
    if a / b >= 1.0 {
      assert (a / b) * b >= 1.0 * b;
    }
  }

  lemma CrossMultiply(a: real, b: real, c: real, d: real)
    requires b > 0.0 && d > 0.0
    ensures a / b <= c / d <==> a * d <= c * b
  {
    var x := a / b;
    var y := c / d;
    assert x * b == a && y * d == c;
    assert b * d > 0.0;
    assert x * (b * d) == a * d;
    assert y * (b * d) == c * b;
    if x <= y {
      assert x * (b * d) <= y * (b * d);
    } else {
      assert x * (b * d) > y * (b * d);
    }
  }

  /** A raster can be shown exactly when neither shown dimension truncates to 0. */
  lemma ShowableIffShownSizePositive(w: nat, h: nat)
    requires w > 0 && h > 0
    ensures Showable(w, h) <==> ShownSize(w, h).width > 0 && ShownSize(w, h).height > 0
  {
    if w > CanvasWidth || h > CanvasHeight {
      if CanvasWidth as real / w as real <= CanvasHeight as real / h as real {
        WidthBoundShowable(w, h);
      } else {
        HeightBoundShowable(w, h);
      }
    }
  }

  /** Scaled by 600/w, the width is 600 and the height is positive exactly when w <= 600 * h. */
  lemma WidthBoundShowable(w: nat, h: nat)
    requires w > 0 && h > 0 && (w > CanvasWidth || h > CanvasHeight)
    requires CanvasWidth as real / w as real <= CanvasHeight as real / h as real
    ensures Showable(w, h) <==> ShownSize(w, h).width > 0 && ShownSize(w, h).height > 0
  {
    var s := CanvasWidth as real / w as real;
    CrossMultiply(CanvasWidth as real, w as real, CanvasHeight as real, h as real);
    assert Scale(w, h) == s;
    assert w as real * s == CanvasWidth as real;
    assert h as real * s == (CanvasWidth * h) as real / w as real;
    QuotientAtLeastOne((CanvasWidth * h) as real, w as real);
    TruncPositive(h as real * s);
  }

  /** Scaled by 400/h, the height is 400 and the width is positive exactly when h <= 400 * w. */
  lemma HeightBoundShowable(w: nat, h: nat)
    requires w > 0 && h > 0 && (w > CanvasWidth || h > CanvasHeight)
    requires CanvasHeight as real / h as real < CanvasWidth as real / w as real
    ensures Showable(w, h) <==> ShownSize(w, h).width > 0 && ShownSize(w, h).height > 0
  {
    var s := CanvasHeight as real / h as real;
    CrossMultiply(CanvasWidth as real, w as real, CanvasHeight as real, h as real);
    assert Scale(w, h) == s;
    assert h as real * s == CanvasHeight as real;
    assert w as real * s == (CanvasHeight * w) as real / h as real;
    QuotientAtLeastOne((CanvasHeight * w) as real, h as real);
    TruncPositive(w as real * s);
  }

  /** Truncating an exact quotient of naturals is integer division. */
  lemma TruncQuotient(a: nat, b: nat)
    requires b > 0
    ensures Trunc(a as real / b as real) == a / b
  {
    var q, m := a / b, a % b;
    assert a == q * b + m && 0 <= m < b;
    assert a as real / b as real == q as real + m as real / b as real;
    assert m as real / b as real < 1.0;
  }

  /** `new_h` in integer arithmetic: the height is scaled by 600/w when the width bound is the
      tighter one, and is 400 when the height bound is. `ShownHeightIsShownSize` shows that this
      is the height the float formula gives. */
  function ShownHeight(w: nat, h: nat): (nh: nat)
    requires w > 0 && h > 0
    ensures nh <= h && nh <= CanvasHeight
    ensures w <= CanvasWidth && h <= CanvasHeight ==> nh == h
    ensures Showable(w, h) ==> nh > 0
  {
    ShownHeightClosedForm(w, h);
    ShowableIffShownSizePositive(w, h);
    if w <= CanvasWidth && h <= CanvasHeight then h
    else if CanvasWidth * h <= CanvasHeight * w then (CanvasWidth * h) / w
    else CanvasHeight
  }

  lemma ShownHeightIsShownSize(w: nat, h: nat)
    requires w > 0 && h > 0
    ensures ShownHeight(w, h) == ShownSize(w, h).height
  {
    ShownHeightClosedForm(w, h);
  }

  /** The float formula for `new_h` agrees with its integer form. */
  lemma ShownHeightClosedForm(w: nat, h: nat)
    requires w > 0 && h > 0
    ensures ShownSize(w, h).height ==
      if w <= CanvasWidth && h <= CanvasHeight then h
      else if CanvasWidth * h <= CanvasHeight * w then (CanvasWidth * h) / w
      else CanvasHeight
  {
    if w > CanvasWidth || h > CanvasHeight {
      if CanvasWidth as real / w as real <= CanvasHeight as real / h as real {
        WidthBoundShownHeight(w, h);
      } else {
        HeightBoundShownHeight(w, h);
      }
    }
  }

  /** When 600/w is the smaller factor the shown height is `600 * h // w`. */
  lemma WidthBoundShownHeight(w: nat, h: nat)
    requires w > 0 && h > 0 && (w > CanvasWidth || h > CanvasHeight)
    requires CanvasWidth as real / w as real <= CanvasHeight as real / h as real
    ensures CanvasWidth * h <= CanvasHeight * w
    ensures ShownSize(w, h).height == (CanvasWidth * h) / w
  {
    var sw := CanvasWidth as real / w as real;
    CrossMultiply(CanvasWidth as real, w as real, CanvasHeight as real, h as real);
    assert Scale(w, h) == sw;
    assert h as real * sw == (CanvasWidth * h) as real / w as real;
    TruncQuotient(CanvasWidth * h, w);
  }

  /** When 400/h is the smaller factor the shown height is 400. */
  lemma HeightBoundShownHeight(w: nat, h: nat)
    requires w > 0 && h > 0 && (w > CanvasWidth || h > CanvasHeight)
    requires CanvasHeight as real / h as real < CanvasWidth as real / w as real
    ensures CanvasWidth * h > CanvasHeight * w
    ensures ShownSize(w, h).height == CanvasHeight
  {
    var sh := CanvasHeight as real / h as real;
    CrossMultiply(CanvasWidth as real, w as real, CanvasHeight as real, h as real);
    assert Scale(w, h) == sh;
    assert h as real * sh == CanvasHeight as real;
    assert ShownSize(w, h).height == Trunc(CanvasHeight as real);
  }

  /** `self.ratio = image.shape[0] / new_h`: source pixels per canvas pixel, taken from the height only. */
  function Ratio(w: nat, h: nat): (r: real)
    requires Showable(w, h)
    ensures r >= 1.0
    ensures r * ShownHeight(w, h) as real == h as real
    ensures w <= CanvasWidth && h <= CanvasHeight ==> r == 1.0
  {
    var nh := ShownHeight(w, h);
    QuotientAtLeastOne(h as real, nh as real);
    var r := h as real / nh as real;
    assert r * nh as real == h as real;
    assert w <= CanvasWidth && h <= CanvasHeight ==> nh == h && r == 1.0;
    r
  }

  /** The ratio times the height `display_image` draws at gives back the raster's height. */
  lemma RatioScalesShownHeight(w: nat, h: nat)
    requires Showable(w, h)
    ensures Ratio(w, h) * ShownSize(w, h).height as real == h as real
  {
    ShownHeightIsShownSize(w, h);
  }

  /** `int(x * self.ratio)`: a canvas coordinate mapped to the source raster. */
  function ToSource(x: int, ratio: real): (n: int)
    requires ratio >= 0.0
    ensures 0 <= x ==> 0 <= n && n as real <= x as real * ratio < n as real + 1.0
    ensures x < 0 ==> n <= 0 && n as real - 1.0 < x as real * ratio <= n as real
  {
    Trunc(x as real * ratio)
  }

  /** `(int(x * ratio), int(y * ratio))`. */
  function PointToSource(p: Point, ratio: real): (q: Point)
    requires ratio >= 0.0
    ensures q.x == ToSource(p.x, ratio) && q.y == ToSource(p.y, ratio)
  {
    Point(ToSource(p.x, ratio), ToSource(p.y, ratio))
  }

  /** With ratio 1 a canvas coordinate is the source coordinate. */
  lemma ToSourceUnitRatio(x: int)
    ensures ToSource(x, 1.0) == x
  {
  }

  /** Truncation keeps the order of reals. */
  lemma TruncMonotone(a: real, b: real)
    requires a <= b
    ensures Trunc(a) <= Trunc(b)
  {
    if 0.0 <= a {
      assert a.Floor as real <= a <= b < b.Floor as real + 1.0;
    } else if b < 0.0 {
      assert (-b).Floor as real <= -b <= -a < (-a).Floor as real + 1.0;
    }
  }

  /** The mapping keeps the order of coordinates, so sorting before or after mapping agrees. */
  lemma ToSourceMonotone(x: int, y: int, ratio: real)
    requires ratio >= 0.0 && x <= y
    ensures ToSource(x, ratio) <= ToSource(y, ratio)
  {
    assert y as real * ratio - x as real * ratio == (y - x) as real * ratio >= 0.0;
    TruncMonotone(x as real * ratio, y as real * ratio);
  }

  /** A raster that fits the canvas is shown at its own size and canvas coordinates are
      source coordinates. */
  lemma FittingRasterMapsUnchanged(w: nat, h: nat, x: int)
    requires 0 < w <= CanvasWidth && 0 < h <= CanvasHeight
    ensures Showable(w, h) && ShownSize(w, h) == Size(w, h)
    ensures ToSource(x, Ratio(w, h)) == x
  {
  }

  /** The ratio comes from the height alone but is applied to both axes: for a 1000 x 401 raster
      the canvas is 600 x 240, and canvas column 599 maps to source column 1000, one past the
      last column. */
  lemma HeightRatioOvershootsWidth()
    ensures Showable(1000, 401)
    ensures ShownSize(1000, 401) == Size(600, 240)
    ensures ToSource(599, Ratio(1000, 401)) == 1000
  {
    assert Scale(1000, 401) == 0.6;
    assert 401.0 * 0.6 == 240.6;
    assert Trunc(240.6) == 240;
    assert Ratio(1000, 401) == 401.0 / 240.0;
    assert 599.0 * (401.0 / 240.0) == 240199.0 / 240.0;
  }
}
