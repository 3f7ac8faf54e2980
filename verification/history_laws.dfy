/** Laws of the undo/redo history that relate several transitions of `Editor`. */
module HistoryLaws {
  import opened Wrappers
  import opened Raster
  import opened Display
  import opened Crop
  import opened OpenCv
  import opened Editor

  /** Redo right after an undo restores the whole state. */
  lemma UndoThenRedo(s: State)
    requires Valid(s) && RatioFresh(s) && s.history != []
    ensures Redo(Undo(s)) == s
  {
    var u := Undo(s);
    assert u.history + [s.history[|s.history| - 1]] == s.history;
    assert u.future[..|u.future| - 1] == s.future;
  }

  /** Undo right after a redo restores the whole state. */
  lemma RedoThenUndo(s: State)
    requires Valid(s) && RatioFresh(s) && s.future != []
    ensures Undo(Redo(s)) == s
  {
    var r := Redo(s);
    assert r.future + [s.future[|s.future| - 1]] == s.future;
    assert r.history[..|r.history| - 1] == s.history;
  }

  /** Because the top of `history` already is the current raster, the first undo after a commit
      leaves the same pixels current; it only moves one copy onto `future`. */
  lemma FirstUndoAfterCommitKeepsPixels(s: State)
    requires Valid(s) && TopIsCurrent(s)
    ensures Undo(s).current == s.current
    ensures |Undo(s).history| == |s.history| - 1 && |Undo(s).future| == |s.future| + 1
  {
  }

  /** A stroke drawn after a commit is not in `history`, so one undo skips back past it to the
      committed raster; the stroked raster moves onto `future`, and a redo brings it back. */
  lemma UndoSkipsUnsavedStroke(lib: Library, s: State, last: Point, at: Point, colour: Rgb)
    requires Valid(s) && TopIsCurrent(s)
    ensures var d := DrawLine(lib, s, last, at, colour).0;
            && Undo(d).current == s.current
            && Undo(d).future == s.future + [d.current.value]
            && Redo(Undo(d)).current == d.current
  {
  }

  /** The committing user actions. */
  datatype Edit =
    | RevertEdit
    | NegativeFilter
    | BwFilter
    | SketchFilter
    | SepiaFilter
    | TextStamp(at: Point, text: string, colour: Rgb)
    | CropDrag(start: Point, end: Point)

  /** The action can run without raising: a raster is loaded and a crop leaves a showable raster. */
  predicate CanApply(s: State, e: Edit) {
    && Valid(s) && s.current.Some?
    && (e.CropDrag? ==> Displayable(CropIntended(s.current.value, e.start, e.end, s.ratio)))
  }

  function ApplyEdit(lib: Library, s: State, e: Edit): (r: State)
    requires CanApply(s, e)
    ensures Valid(r) && TopIsCurrent(r) && r.future == [] && r.original == s.original
    ensures r.history == s.history + [r.current.value]
  {
    match e
    case RevertEdit => Revert(s)
    case NegativeFilter => ApplyNegative(s)
    case BwFilter => ApplyBw(lib, s)
    case SketchFilter => ApplySketch(lib, s)
    case SepiaFilter => ApplySepia(lib, s)
    case TextStamp(at, text, colour) => DrawText(lib, s, at, text, colour)
    case CropDrag(start, end) => CropEnd(s, start, end)
  }

  /** Every action of `es`, in order, can run. */
  predicate Applicable(lib: Library, s: State, es: seq<Edit>)
    decreases |es|
  {
    |es| == 0 || (CanApply(s, es[0]) && Applicable(lib, ApplyEdit(lib, s, es[0]), es[1..]))
  }

  /** Running a sequence of committing actions: `history` only grows, by one raster per action,
      and the redo stack ends empty. */
  function ApplyEdits(lib: Library, s: State, es: seq<Edit>): (r: State)
    requires Valid(s) && Applicable(lib, s, es)
    ensures Valid(r) && r.original == s.original
    ensures |r.history| == |s.history| + |es| && r.history[..|s.history|] == s.history
    ensures |es| > 0 ==> TopIsCurrent(r) && r.future == []
    ensures |es| == 0 ==> r == s
    decreases |es|
  {
    if |es| == 0 then s
    else
      var t := ApplyEdit(lib, s, es[0]);
      var r := ApplyEdits(lib, t, es[1..]);
      assert r.history[..|s.history|] == r.history[..|t.history|][..|s.history|];
      r
  }

  /** `k` undos in a row. While `history` lasts, the k-th undo makes the k-th raster from the
      top current and leaves the rasters below it as `history`. */
  function UndoTimes(s: State, k: nat): (r: State)
    requires Valid(s)
    ensures Valid(r) && r.original == s.original
    ensures |r.history| + |r.future| == |s.history| + |s.future|
    ensures k <= |s.history| ==> r.history == s.history[..|s.history| - k]
    ensures 0 < k <= |s.history| ==> r.current == Some(s.history[|s.history| - k])
    decreases k
  {
    if k == 0 then s
    else
      var u := Undo(s);
      var r := UndoTimes(u, k - 1);
      assert k <= |s.history| ==> s.history[..|s.history| - k] == u.history[..|u.history| - (k - 1)];
      r
  }

  /** When `k` rasters sit on top of `img` in `history`, k + 1 undos make `img` current and leave
      what lay below it. */
  lemma UndoPastPushes(s: State, below: seq<Image>, img: Image, k: nat)
    requires Valid(s) && |s.history| == |below| + 1 + k && s.history[..|below| + 1] == below + [img]
    ensures UndoTimes(s, k + 1).current == Some(img)
    ensures UndoTimes(s, k + 1).history == below
  {
    var n := |below|;
    assert s.history[|s.history| - (k + 1)] == s.history[..n + 1][n];
    assert s.history[..|s.history| - (k + 1)] == s.history[..n + 1][..n];
  }

  /** After an upload and N committing actions (no strokes), N + 1 undos bring back the uploaded
      raster and exactly the history that preceded the upload. */
  lemma UndoingEveryEditReturnsToUpload(lib: Library, s: State, img: Image, es: seq<Edit>)
    requires Valid(s) && Displayable(img)
    requires Applicable(lib, Upload(s, Some(img)), es)
    ensures UndoTimes(ApplyEdits(lib, Upload(s, Some(img)), es), |es| + 1).current == Some(img)
    ensures UndoTimes(ApplyEdits(lib, Upload(s, Some(img)), es), |es| + 1).history == s.history
  {
    var u := Upload(s, Some(img));
    var e := ApplyEdits(lib, u, es);
    UndoPastPushes(e, s.history, img, |es|);
  }

  /** From a fresh editor the same holds with an empty history. */
  lemma UndoingEveryEditFromStart(lib: Library, img: Image, es: seq<Edit>)
    requires Displayable(img)
    requires Applicable(lib, Upload(Init(), Some(img)), es)
    ensures UndoTimes(ApplyEdits(lib, Upload(Init(), Some(img)), es), |es| + 1).current == Some(img)
    ensures UndoTimes(ApplyEdits(lib, Upload(Init(), Some(img)), es), |es| + 1).history == []
  {
    UndoingEveryEditReturnsToUpload(lib, Init(), img, es);
  }

  /** A committing action after an undo discards the redo branch the undo created. */
  lemma EditAfterUndoDiscardsRedo(lib: Library, s: State, e: Edit)
    requires Valid(s) && s.history != [] && CanApply(Undo(s), e)
    ensures Undo(s).future != []
    ensures Redo(ApplyEdit(lib, Undo(s), e)) == ApplyEdit(lib, Undo(s), e)
  {
  }

  /** Load, sepia, negative, then undo three times and redo twice. With the post-edit history the
      first undo shows the same negative raster, the second the sepia raster, the third the
      uploaded one, and two redos lead back to the sepia raster and then the negative raster. */
  lemma SepiaNegativeScenario(lib: Library, img: Image)
    requires Displayable(img)
    ensures var s0 := Upload(Init(), Some(img));
            var s1 := ApplySepia(lib, s0);
            var s2 := ApplyNegative(s1);
            var u1 := Undo(s2);
            var u2 := Undo(u1);
            var u3 := Undo(u2);
            var r1 := Redo(u3);
            var r2 := Redo(r1);
            && u1.current == s2.current
            && u2.current == s1.current
            && u3.current == Some(img)
            && r1.current == s1.current
            && r2.current == s2.current
  {
  }
}
