/** The edit-state machine of `ImageEditorApp`: the five fields the editing handlers read and
    write, and one pure transition per handler. No two fields ever share a buffer in the source
    (stack pushes are copies, pops hand their buffer over, and the other stores are fresh arrays,
    copies of the original, or a slice of a raster nothing else holds), so value semantics is faithful. */
module Editor {
  import opened Wrappers
  import opened Raster
  import opened Display
  import opened Crop
  import opened OpenCv

  /** `original_image`, `filtered_image` (the current raster), `history`, `future` (both stacks,
      top last) and `ratio`. */
  datatype State = State(original: Option<Image>, current: Option<Image>,
                         history: seq<Image>, future: seq<Image>, ratio: real)

  /** `draw_color`, held as an RGB triple and handed to OpenCV reversed (`[::-1]`) as BGR. */
  datatype Rgb = Rgb(r: Channel, g: Channel, b: Channel)

  function AsBgr(c: Rgb): (p: Pixel)
    ensures ChannelOf(p, 0) == c.b && ChannelOf(p, 1) == c.g && ChannelOf(p, 2) == c.r
  {
    Pixel(c.b, c.g, c.r)
  }

  /** A raster `display_image` can show without raising. */
  predicate Displayable(img: Image) {
    Rectangular(img) && Showable(Width(img), Height(img))
  }

  function RatioOf(img: Image): real
    requires Displayable(img)
  {
    Ratio(Width(img), Height(img))
  }

  /** What every reachable state satisfies: nothing is held before the first upload, every held
      raster can be shown, and the ratio is at least 1. */
  predicate Valid(s: State) {
    && s.ratio >= 1.0
    && (s.current.None? ==> s.original.None? && s.history == [] && s.future == [])
    && (s.current.Some? ==> s.original.Some? && Displayable(s.current.value))
    && (s.original.Some? ==> Displayable(s.original.value))
    && (forall i :: 0 <= i < |s.history| ==> Displayable(s.history[i]))
    && (forall i :: 0 <= i < |s.future| ==> Displayable(s.future[i]))
  }

  /** The stored ratio is the one `display_image` computed for the current raster. Every
      transition that shows a raster establishes it and the others keep it. */
  predicate RatioFresh(s: State) {
    s.current.Some? ==> Displayable(s.current.value) && s.ratio == RatioOf(s.current.value)
  }

  /** The top of `history` is the current raster, as it is right after every commit because
      `save_history` pushes the post-edit raster. */
  predicate TopIsCurrent(s: State) {
    s.current.Some? && |s.history| > 0 && s.history[|s.history| - 1] == s.current.value
  }

  /** `init_vars`. */
  function Init(): (s: State)
    ensures Valid(s) && s.current.None? && s.history == [] && s.future == []
  {
    State(None, None, [], [], 1.0)
  }

  lemma SameShapeDisplayable(a: Image, b: Image)
    requires SameShape(a, b) && Displayable(a)
    ensures Displayable(b) && RatioOf(b) == RatioOf(a)
  {
  }

  /** The state part of `display_image(img)`: the ratio it stores. */
  function Show(s: State, img: Image): State
    requires Displayable(img)
  {
    s.(ratio := RatioOf(img))
  }

  /** `save_history`: with a raster loaded, push a copy of the current raster and drop the redo
      stack; with none loaded, do nothing. */
  function SaveHistory(s: State): (r: State)
    ensures s.current.None? ==> r == s
    ensures s.current.Some? ==> TopIsCurrent(r) && r.future == []
    ensures s.current.Some? ==> |r.history| == |s.history| + 1 && r.history[..|s.history|] == s.history
    ensures r.current == s.current && r.original == s.original && r.ratio == s.ratio
  {
    if s.current.Some? then s.(history := s.history + [s.current.value], future := []) else s
  }

  /** The shared tail of every committing handler: make `img` current, show it, save history. */
  function Commit(s: State, img: Image): (r: State)
    requires Valid(s) && s.original.Some? && Displayable(img)
    ensures Valid(r) && RatioFresh(r) && TopIsCurrent(r) && r.current == Some(img) && r.future == []
    ensures r.history == s.history + [img] && r.original == s.original
  {
    SaveHistory(Show(s.(current := Some(img)), img))
  }

  /** `upload_image`: `picked` is what the file dialog and `imread` produced, `None` when the
      dialog was cancelled. The previous history is kept. */
  function Upload(s: State, picked: Option<Image>): (r: State)
    requires Valid(s)
    requires picked.Some? ==> Displayable(picked.value)
    ensures Valid(r)
    ensures picked.None? ==> r == s
    ensures picked.Some? ==> RatioFresh(r)
    ensures picked.Some? ==> r.original == picked && r.current == picked && TopIsCurrent(r) && r.future == []
    ensures picked.Some? ==> r.history == s.history + [picked.value]
  {
    match picked
    case None => s
    case Some(img) => SaveHistory(Show(s.(original := Some(img), current := Some(img)), img))
  }

  /** `undo`: with an empty history nothing happens; otherwise the current raster goes onto
      `future` and the top of `history` becomes current. */
  function Undo(s: State): (r: State)
    requires Valid(s)
    ensures Valid(r) && r.original == s.original
    ensures s.history == [] ==> r == s
    ensures |r.history| + |r.future| == |s.history| + |s.future|
    ensures s.history != [] ==> RatioFresh(r)
    ensures s.history != [] ==> && r.history == s.history[..|s.history| - 1]
                                && r.current == Some(s.history[|s.history| - 1])
                                && r.future == s.future + [s.current.value]
  {
    if s.history == [] then s
    else
      var top := s.history[|s.history| - 1];
      Show(s.(future := s.future + [s.current.value], current := Some(top),
              history := s.history[..|s.history| - 1]), top)
  }

  /** `redo`: with an empty `future` nothing happens; otherwise the current raster goes onto
      `history` and the top of `future` becomes current. */
  function Redo(s: State): (r: State)
    requires Valid(s)
    ensures Valid(r) && r.original == s.original
    ensures s.future == [] ==> r == s
    ensures |r.history| + |r.future| == |s.history| + |s.future|
    ensures s.future != [] ==> RatioFresh(r)
    ensures s.future != [] ==> && r.future == s.future[..|s.future| - 1]
                               && r.current == Some(s.future[|s.future| - 1])
                               && r.history == s.history + [s.current.value]
  {
    if s.future == [] then s
    else
      var top := s.future[|s.future| - 1];
      Show(s.(history := s.history + [s.current.value], current := Some(top),
              future := s.future[..|s.future| - 1]), top)
  }

  /** `revert_changes`: the uploaded raster becomes current again and is committed, whatever the
      history holds. `imread` having succeeded, an original is present. */
  function Revert(s: State): (r: State)
    requires Valid(s) && s.original.Some?
    ensures Valid(r) && RatioFresh(r) && TopIsCurrent(r) && r.future == []
    ensures r.current == s.original && r.original == s.original
    ensures r.history == s.history + [s.original.value]
  {
    Commit(s, s.original.value)
  }

  /** `apply_negative`. */
  function ApplyNegative(s: State): (r: State)
    requires Valid(s) && s.current.Some?
    ensures Valid(r) && RatioFresh(r) && TopIsCurrent(r) && r.future == [] && r.original == s.original
    ensures r.current == Some(Negative(s.current.value))
    ensures r.history == s.history + [r.current.value]
  {
    var img := Negative(s.current.value);
    SameShapeDisplayable(s.current.value, img);
    Commit(s, img)
  }

  /** `apply_bw`. */
  function ApplyBw(lib: Library, s: State): (r: State)
    requires Valid(s) && s.current.Some?
    ensures Valid(r) && RatioFresh(r) && TopIsCurrent(r) && r.future == [] && r.original == s.original
    ensures r.current == Some(Gray(lib, s.current.value))
    ensures r.history == s.history + [r.current.value]
  {
    var img := Gray(lib, s.current.value);
    SameShapeDisplayable(s.current.value, img);
    Commit(s, img)
  }

  /** `apply_sketch`. */
  function ApplySketch(lib: Library, s: State): (r: State)
    requires Valid(s) && s.current.Some?
    ensures Valid(r) && RatioFresh(r) && TopIsCurrent(r) && r.future == [] && r.original == s.original
    ensures r.current == Some(Sketch(lib, s.current.value))
    ensures r.history == s.history + [r.current.value]
  {
    var img := Sketch(lib, s.current.value);
    SameShapeDisplayable(s.current.value, img);
    Commit(s, img)
  }

  /** `apply_sepia`. */
  function ApplySepia(lib: Library, s: State): (r: State)
    requires Valid(s) && s.current.Some?
    ensures Valid(r) && RatioFresh(r) && TopIsCurrent(r) && r.future == [] && r.original == s.original
    ensures r.current == Some(Sepia(lib, s.current.value))
    ensures r.history == s.history + [r.current.value]
  {
    var img := Sepia(lib, s.current.value);
    SameShapeDisplayable(s.current.value, img);
    Commit(s, img)
  }

  /** `draw_line`: one mouse-motion step from the last drag point `last` to `at`, both canvas
      points. The segment is drawn into the current raster at the mapped points; nothing is shown
      and no history is saved. The second component is the new last drag point. */
  function DrawLine(lib: Library, s: State, last: Point, at: Point, colour: Rgb): (r: (State, Point))
    requires Valid(s) && s.current.Some?
    ensures Valid(r.0) && r.1 == at
    ensures r.0.history == s.history && r.0.future == s.future
    ensures r.0.original == s.original && r.0.ratio == s.ratio
    ensures r.0.current == Some(Line(lib, s.current.value, PointToSource(last, s.ratio),
                                     PointToSource(at, s.ratio), AsBgr(colour)))
  {
    var img := Line(lib, s.current.value, PointToSource(last, s.ratio), PointToSource(at, s.ratio), AsBgr(colour));
    SameShapeDisplayable(s.current.value, img);
    (s.(current := Some(img)), at)
  }

  /** `draw_text`: the text is stamped at the mapped click point and committed. */
  function DrawText(lib: Library, s: State, at: Point, text: string, colour: Rgb): (r: State)
    requires Valid(s) && s.current.Some?
    ensures Valid(r) && RatioFresh(r) && TopIsCurrent(r) && r.future == [] && r.original == s.original
    ensures r.current == Some(Text(lib, s.current.value, text, PointToSource(at, s.ratio), AsBgr(colour)))
    ensures r.history == s.history + [r.current.value]
  {
    var img := Text(lib, s.current.value, text, PointToSource(at, s.ratio), AsBgr(colour));
    SameShapeDisplayable(s.current.value, img);
    Commit(s, img)
  }

  /** `crop_end` with the rectangle the drag means (see `Crop.BoxIntended`); the crop must leave
      a raster `display_image` can show. */
  function CropEnd(s: State, start: Point, end: Point): (r: State)
    requires Valid(s) && s.current.Some?
    requires Displayable(CropIntended(s.current.value, start, end, s.ratio))
    ensures Valid(r) && RatioFresh(r) && TopIsCurrent(r) && r.future == [] && r.original == s.original
    ensures r.current == Some(CropIntended(s.current.value, start, end, s.ratio))
    ensures r.history == s.history + [r.current.value]
  {
    Commit(s, CropIntended(s.current.value, start, end, s.ratio))
  }

  /** The outcome of `crop_end` as written: the handler either runs to the end or raises inside
      `display_image` after `filtered_image` has already been replaced. */
  datatype Step = Completed(state: State) | Raised(state: State)

  function CropEndAsWritten(s: State, start: Point, end: Point): (r: Step)
    requires Valid(s) && s.current.Some?
    ensures r.state.current == Some(CropAsWritten(s.current.value, start, end, s.ratio))
    ensures r.Raised? <==> !Displayable(CropAsWritten(s.current.value, start, end, s.ratio))
    ensures r.Raised? ==> r.state.history == s.history && r.state.future == s.future
    ensures start.x >= 0 && start.y >= 0 ==> r.Raised? && !Valid(r.state)
    ensures r.state.original == s.original
    ensures r.Raised? ==> r.state.ratio == s.ratio
  {
    var img := CropAsWritten(s.current.value, start, end, s.ratio);
    if Displayable(img) then Completed(Commit(s, img)) else Raised(s.(current := Some(img)))
  }

  /** Neither the raster fields nor the stacks differ; only the ratio may have been recomputed. */
  predicate Unchanged(s: State, t: State) {
    t.original == s.original && t.current == s.current && t.history == s.history && t.future == s.future
  }

  /** `adjust_brightness`: a preview. The shown raster (second component) is the current raster
      through `convertScaleAbs`; the state is left as it was. Nothing is shown before an upload. */
  function AdjustBrightness(s: State, value: int): (r: (State, Option<Image>))
    requires Valid(s)
    ensures Valid(r.0) && Unchanged(s, r.0)
    ensures s.current.None? <==> r.1.None?
    ensures s.current.Some? ==> r.1 == Some(Brightness(s.current.value, value))
  {
    if s.original.None? then (s, None)
    else
      var shown := Brightness(s.current.value, value);
      SameShapeDisplayable(s.current.value, shown);
      (Show(s, shown), Some(shown))
  }

  /** `apply_blur`'s kernel size: the slider value, bumped to the next odd number when even, or
      no blur at all when that is below 3. */
  function BlurKernel(value: int): (k: Option<nat>)
    ensures k.None? <==> value < 2
    ensures k.Some? ==> k.value % 2 == 1 && k.value >= 3
    ensures k.Some? ==> k.value == value || (value % 2 == 0 && k.value == value + 1)
  {
    var k := if value % 2 == 0 then value + 1 else value;
    if k < 3 then None else Some(k)
  }

  /** `apply_blur`: a preview of the current raster blurred with `BlurKernel(value)`, or the
      current raster itself when there is no kernel. Only the ratio is recomputed. */
  function ApplyBlur(lib: Library, s: State, value: int): (r: (State, Option<Image>))
    requires Valid(s)
    ensures Valid(r.0) && Unchanged(s, r.0)
    ensures s.current.None? <==> r.1.None?
    ensures s.current.Some? && BlurKernel(value).None? ==> r.1 == s.current
    ensures s.current.Some? && BlurKernel(value).Some? ==>
              r.1 == Some(Blur(lib, s.current.value, BlurKernel(value).value))
  {
    if s.current.None? then (s, None)
    else
      match BlurKernel(value)
      case None => (Show(s, s.current.value), s.current)
      case Some(k) =>
        var shown := Blur(lib, s.current.value, k);
        SameShapeDisplayable(s.current.value, shown);
        (Show(s, shown), Some(shown))
  }

  /** A stroke keeps the raster's shape, so the stored ratio stays the current raster's. */
  lemma DrawLineKeepsRatioFresh(lib: Library, s: State, last: Point, at: Point, colour: Rgb)
    requires Valid(s) && s.current.Some? && RatioFresh(s)
    ensures RatioFresh(DrawLine(lib, s, last, at, colour).0)
  {
    var img := DrawLine(lib, s, last, at, colour).0.current.value;
    SameShapeDisplayable(s.current.value, img);
  }

  /** Previews show a raster of the current raster's shape, so the ratio they recompute is the
      one already stored: the whole state is left as it was. */
  lemma PreviewsChangeNothing(lib: Library, s: State, value: int)
    requires Valid(s) && RatioFresh(s)
    ensures AdjustBrightness(s, value).0 == s
    ensures ApplyBlur(lib, s, value).0 == s
  {
    if s.current.Some? {
      var cur := s.current.value;
      SameShapeDisplayable(cur, Brightness(cur, value));
      if BlurKernel(value).Some? {
        SameShapeDisplayable(cur, Blur(lib, cur, BlurKernel(value).value));
      }
    }
  }
}
