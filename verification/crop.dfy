/** `crop_end`: the rectangle dragged on the canvas, mapped to the source raster and cut out with
    numpy basic slicing `img[r0:r1, c0:c1]`. Both the arithmetic as written and the rectangle it
    evidently means are modelled. */
module Crop {
  import opened Raster
  import opened Display

  /** The index range a numpy slice `[start:stop]` with step 1 selects in an axis of length `n`. */
  datatype Range = Range(lo: nat, hi: nat)

  /** numpy's normalisation of one slice bound: a negative bound counts from the end, then the
      bound is clamped into `[0, n]`. */
  function Bound(i: int, n: nat): (k: nat)
    ensures k <= n
    ensures 0 <= i <= n ==> k == i
    ensures n < i ==> k == n
    ensures i < 0 && 0 <= i + n ==> k == i + n
    ensures i + n < 0 ==> k == 0
  {
    if i < 0 then (if i + n < 0 then 0 else i + n) else if i > n then n else i
  }

  /** `[start:stop]`: empty, at the start bound, when the start bound is not below the stop bound. */
  function SliceRange(start: int, stop: int, n: nat): (r: Range)
    ensures r.lo <= r.hi <= n
    ensures r.lo == Bound(start, n)
    ensures r.hi - r.lo == if Bound(stop, n) > Bound(start, n) then Bound(stop, n) - Bound(start, n) else 0
  {
    var lo := Bound(start, n);
    var hi := Bound(stop, n);
    Range(lo, if hi < lo then lo else hi)
  }

  /** Two non-negative slice bounds with start not below stop select nothing. */
  lemma SliceEmptyWhenStartNotBelowStop(start: int, stop: int, n: nat)
    requires 0 <= stop <= start
    ensures SliceRange(start, stop, n).lo == SliceRange(start, stop, n).hi
  {
  }

  /** `img[r0:r1, c0:c1]`. */
  function Slice2D(img: Image, r0: int, r1: int, c0: int, c1: int): (r: Image)
    requires Rectangular(img)
    ensures Rectangular(r)
    ensures Height(r) == SliceRange(r0, r1, Height(img)).hi - SliceRange(r0, r1, Height(img)).lo
    ensures Height(r) > 0 ==> Width(r) == SliceRange(c0, c1, Width(img)).hi - SliceRange(c0, c1, Width(img)).lo
    ensures forall i, j :: 0 <= i < Height(r) && 0 <= j < Width(r) ==>
              r[i][j] == img[SliceRange(r0, r1, Height(img)).lo + i][SliceRange(c0, c1, Width(img)).lo + j]
  {
    var rows := SliceRange(r0, r1, Height(img));
    var cols := SliceRange(c0, c1, Width(img));
    Build(rows.hi - rows.lo, cols.hi - cols.lo, (i: nat, j: nat) =>
      if rows.lo + i < |img| && cols.lo + j < |img[rows.lo + i]| then img[rows.lo + i][cols.lo + j]
      else Pixel(0, 0, 0))
  }

  /** The source-space bounds the crop slices with: rows `[r0:r1]`, columns `[c0:c1]`. */
  datatype Box = Box(r0: int, r1: int, c0: int, c1: int)

  function Min(a: int, b: int): int { if a <= b then a else b }
  function Max(a: int, b: int): int { if a <= b then b else a }

  /** The bounds exactly as `crop_end` computes them. The sorted x pair lands in `x1, y1` and the
      sorted y pair in `x2, y2`; after mapping, the rows are `[y2:y1]` or `[y1:y2]`, whichever has
      the larger bound first, and the columns run from the mapped smaller x to the mapped
      smaller y. */
  function BoxAsWritten(start: Point, end: Point, ratio: real): (b: Box)
    requires ratio >= 0.0
    ensures b.r0 >= b.r1
    ensures var mx := ToSource(Max(start.x, end.x), ratio);
            var my := ToSource(Max(start.y, end.y), ratio);
            b.r0 == Max(mx, my) && b.r1 == Min(mx, my)
    ensures b.c0 == ToSource(Min(start.x, end.x), ratio) && b.c1 == ToSource(Min(start.y, end.y), ratio)
  {
    var x1 := ToSource(Min(start.x, end.x), ratio);
    var y1 := ToSource(Max(start.x, end.x), ratio);
    var x2 := ToSource(Min(start.y, end.y), ratio);
    var y2 := ToSource(Max(start.y, end.y), ratio);
    if y2 > y1 then Box(y2, y1, x1, x2) else Box(y1, y2, x1, x2)
  }

  /** The rectangle the drag means: rows from the mapped smaller y to the mapped larger y,
      columns from the mapped smaller x to the mapped larger x. */
  function BoxIntended(start: Point, end: Point, ratio: real): (b: Box)
    requires ratio >= 0.0
    ensures b.r0 <= b.r1 && b.c0 <= b.c1
    ensures b.r0 == ToSource(Min(start.y, end.y), ratio) && b.r1 == ToSource(Max(start.y, end.y), ratio)
    ensures b.c0 == ToSource(Min(start.x, end.x), ratio) && b.c1 == ToSource(Max(start.x, end.x), ratio)
  {
    ToSourceMonotone(Min(start.y, end.y), Max(start.y, end.y), ratio);
    ToSourceMonotone(Min(start.x, end.x), Max(start.x, end.x), ratio);
    Box(ToSource(Min(start.y, end.y), ratio), ToSource(Max(start.y, end.y), ratio),
        ToSource(Min(start.x, end.x), ratio), ToSource(Max(start.x, end.x), ratio))
  }

  /** The crop as written. The press that starts the drag is on the canvas, so both mapped
      maxima are non-negative and the row slice, which starts at the larger of them, is empty:
      every such crop has zero rows. */
  function CropAsWritten(img: Image, start: Point, end: Point, ratio: real): (r: Image)
    requires Rectangular(img) && ratio >= 0.0
    ensures Rectangular(r)
    ensures start.x >= 0 && start.y >= 0 ==> Height(r) == 0
  {
    var b := BoxAsWritten(start, end, ratio);
    assert start.x >= 0 && start.y >= 0 ==> 0 <= b.r1 <= b.r0;
    Slice2D(img, b.r0, b.r1, b.c0, b.c1)
  }

  /** The crop the drag means. For a drag that stays on the canvas it is the mapped rectangle
      clipped to the raster, and its pixels are the source pixels at the mapped offsets. */
  function CropIntended(img: Image, start: Point, end: Point, ratio: real): (r: Image)
    requires Rectangular(img) && ratio >= 0.0
    ensures Rectangular(r)
    ensures var b := BoxIntended(start, end, ratio);
            start.x >= 0 && start.y >= 0 && end.x >= 0 && end.y >= 0 ==>
            && Height(r) == Min(b.r1, Height(img)) - Min(b.r0, Height(img))
            && (Height(r) > 0 ==> Width(r) == Min(b.c1, Width(img)) - Min(b.c0, Width(img)))
            && forall i, j :: 0 <= i < Height(r) && 0 <= j < Width(r) ==> r[i][j] == img[b.r0 + i][b.c0 + j]
  {
    var b := BoxIntended(start, end, ratio);
    Slice2D(img, b.r0, b.r1, b.c0, b.c1)
  }

  /** Dragging from canvas (0, 0) to (2, 2) at ratio 1 over any raster of at least 2 x 2 should
      cut out a 2 x 2 raster, but the code as written yields no rows. */
  lemma CropAsWrittenLosesSquare(img: Image)
    requires Rectangular(img) && Height(img) >= 2 && Width(img) >= 2
    ensures Height(CropIntended(img, Point(0, 0), Point(2, 2), 1.0)) == 2
    ensures Width(CropIntended(img, Point(0, 0), Point(2, 2), 1.0)) == 2
    ensures Height(CropAsWritten(img, Point(0, 0), Point(2, 2), 1.0)) == 0
  {
    ToSourceUnitRatio(0);
    ToSourceUnitRatio(2);
  }

  /** Which corner the drag starts from does not matter, as written or as intended: swapping the
      x coordinates, the y coordinates or both gives the same bounds. */
  lemma CropIgnoresDragDirection(start: Point, end: Point, ratio: real)
    requires ratio >= 0.0
    ensures BoxIntended(start, end, ratio) == BoxIntended(end, start, ratio)
    ensures BoxIntended(start, end, ratio) == BoxIntended(Point(end.x, start.y), Point(start.x, end.y), ratio)
    ensures BoxAsWritten(start, end, ratio) == BoxAsWritten(end, start, ratio)
    ensures BoxAsWritten(start, end, ratio) == BoxAsWritten(Point(end.x, start.y), Point(start.x, end.y), ratio)
  {
  }
}
