# Image editor edit-state model

A Dafny model of the core of a small Tk/OpenCV image editor (`ImageEditorApp`) and of its
background-removal helper. The model covers:

- **the edit-state machine**: the five fields the editing handlers share. These are
  `original_image`, `filtered_image` (the current raster), the `history` and `future` stacks,
  and `ratio`. Each handler is one pure transition over an immutable `Editor.State`. Every push
  onto a stack is a `.copy()` and every pop hands its buffer over. The other stores are
  `imread`'s array, a copy of the original, a filter's fresh output, or the crop's slice of a
  raster nothing else holds. No two fields ever share a buffer, so value semantics matches the source.
- **the coordinate arithmetic** around it. This covers the display scale and ratio of
  `display_image`, the `int(x * ratio)` mapping used by drawing, text and crop, and numpy's
  slice semantics in `crop_end`.
- **the tensor layout and mask composition of `remove_background`**: BGR→RGB, resize to
  320×320, scaling to [0,1], HWC→CHW plus a batch axis, inference, resizing the map back,
  the strict 0.5 threshold, and the BGRA merge. The editor imports this function but never
  calls it, so it is modelled on its own.

OpenCV routines whose pixel values are not modelled are parameters. An `OpenCv.Library` or
`Background.Backend` value supplies the pixel each routine writes at each position. The model
rebuilds rasters from those pixels, so shape preservation holds by construction. The routines
are luma, sepia, pencil sketch, line, text, Gaussian blur, resize and the inference session.
`convertScaleAbs` with `alpha=1` is integer arithmetic and is modelled exactly. The float
arithmetic of the scale, the ratio and the tensor is modelled with exact reals. The shown
height also has an integer form, `Display.ShownHeight`, proved equal to the float formula; the
ratio is computed from it.

`Editor.Valid` holds in every state the modelled transitions reach, except the state that
`Editor.CropEndAsWritten` leaves when the crop raises. In the code as written that is every
crop. Every other transition requires `Valid` and preserves it:
- nothing is held before the first upload;
- every held raster can be shown;
- `ratio` is at least 1.

`Editor.RatioFresh` says that `ratio` is the one `display_image` computed for the current
raster. Every transition that shows a raster establishes it, and the others keep it.

Where the source raises (no image loaded, a raster `display_image` cannot show), the model
states the condition as a precondition. The one exception is the crop, which is a finding.

The code has these quirks, and the model follows them:

- `save_history` pushes the post-edit raster, so the first undo after a commit shows the same
  pixels. Going back one edit takes two undos, and N commits after an upload take N + 1 undos
  to reach the upload (`HistoryLaws.SepiaNegativeScenario`).
- Canvas coordinates are mapped with `int(...)`, which truncates toward zero.
- Slider values below 2 give no blur, and an even value is bumped to the next odd kernel: a
  value of 2 gives kernel 3 and a value of 4 gives kernel 5.
- The negative inverts all three channels. Editor rasters never carry alpha.
- `convertScaleAbs` takes the absolute value before saturating, so the brightness preview is
  not a plain clamp. At slider −100 a black sample previews as 100.
- Every crop leaves a raster with zero rows, because the sorted coordinate pairs are unpacked
  crosswise (see Findings). Such a crop does not fail cleanly. `filtered_image` is already
  replaced when `display_image` raises (`Editor.CropEndAsWritten`).
- `ratio` is taken from the height alone and used for both axes. For a 1000×401 raster,
  canvas column 599 maps to source column 1000, one past the last
  (`Display.HeightRatioOvershootsWidth`).

## Model

| member | source | states |
|---|---|---|
| `Raster.Negative` | main_version3.13.py:114 | every channel v of every pixel becomes 255 − v; rows and row lengths are kept |
| `Raster.NegativeInvolution` | main_version3.13.py:114 | applying the negative twice gives back the raster |
| `Raster.ScaleAbsAgainstSaturatingAdd` | main_version3.13.py:222-223 | for every sample and slider value, `convertScaleAbs(alpha=1, beta)` gives at least the saturated sum v + beta, and exactly it when that sum is not negative |
| `Raster.Brightness` | main_version3.13.py:223 | the brightness preview applies `ScaleAbs` to every channel of every pixel and keeps the shape |
| `Raster.BrightnessZeroIsIdentity` | main_version3.13.py:219-223 | at slider position 0 the preview is the current raster itself |
| `Raster.ScaleAbsReflectsBelowZero` | main_version3.13.py:223 | a darkening slider value brightens dark samples: black at −100 becomes 100, and a darker sample ends brighter than a lighter one |
| `Display.Trunc` | main_version3.13.py:143 | Python's `int()` on a float: the integer next to x on the side of zero |
| `Display.Scale` | main_version3.13.py:142 | the scale is in (0, 1]; it is 1 exactly when the raster fits 600×400; the scaled raster fits and touches the canvas bound in one axis unless the scale is 1 |
| `Display.ShownSize` | main_version3.13.py:143 | the shown size fits 600×400, never exceeds the raster, is the raster's own size when it fits, and otherwise reaches 600 wide or 400 high |
| `Display.ShowableIffShownSizePositive` | main_version3.13.py:142-143 | a raster can be shown exactly when neither shown dimension truncates to 0, that is when w ≤ 600·h and h ≤ 400·w |
| `Display.ShownHeight` | main_version3.13.py:142-143 | `new_h` in integer arithmetic: at most the raster height and 400, the height itself when the raster fits, and positive for every showable raster |
| `Display.ShownHeightIsShownSize` | main_version3.13.py:142-143 | the integer form equals the height the float formula `int(h * scale)` gives, for every raster size |
| `Display.Ratio` | main_version3.13.py:144 | the ratio is at least 1 and times the shown height gives the raster height; a fitting raster has ratio 1 |
| `Display.RatioScalesShownHeight` | main_version3.13.py:142-144 | the ratio times the height `display_image` draws at, as computed with floats, gives back the raster height |
| `Display.ToSource` | main_version3.13.py:167-168 | `int(x * ratio)`: the integer next to x·ratio on the side of zero, for both signs of x |
| `Display.TruncMonotone` | main_version3.13.py:210-211 | `int()` keeps the order of its float arguments |
| `Display.ToSourceMonotone` | main_version3.13.py:208-211 | the mapping keeps the order of coordinates, so sorting before mapping equals sorting after |
| `Display.FittingRasterMapsUnchanged` | main_version3.13.py:142-144 | a raster that fits the canvas is shown at its own size and canvas coordinates equal source coordinates |
| `Display.HeightRatioOvershootsWidth` | main_version3.13.py:144 | for a 1000×401 raster the canvas is 600×240 and canvas column 599 maps to source column 1000, outside the raster |
| `Crop.Bound` | main_version3.13.py:212 | numpy's slice bound: counts from the end when negative, then clamped into [0, n] |
| `Crop.SliceRange` | main_version3.13.py:212 | `[start:stop]` selects from the normalised start, with length the positive difference of the normalised bounds or 0 |
| `Crop.SliceEmptyWhenStartNotBelowStop` | main_version3.13.py:212 | non-negative bounds with start ≥ stop select nothing |
| `Crop.Slice2D` | main_version3.13.py:212 | `img[r0:r1, c0:c1]` has the selected numbers of rows and columns, and each pixel is the source pixel at the selected offsets |
| `Crop.BoxAsWritten` | main_version3.13.py:208-212 | as written, the rows run from the larger to the smaller of the mapped max x and the mapped max y, so the row slice never starts below its stop; the columns run from the mapped smaller x to the mapped smaller y |
| `Crop.BoxIntended` | main_version3.13.py:208-212 | the corrected box: rows from the mapped smaller y to the mapped larger y, columns from the mapped smaller x to the mapped larger x, each ordered |
| `Crop.CropAsWritten` | main_version3.13.py:207-212 | as written, every crop whose press is on the canvas (any release point) has zero rows |
| `Crop.CropAsWrittenLosesSquare` | main_version3.13.py:208-212 | dragging (0,0)→(2,2) at ratio 1 gives a 2×2 intended crop, but zero rows as written |
| `Crop.CropIntended` | main_version3.13.py:207-212 | the corrected crop of an on-canvas drag has the clipped mapped height and width, and each pixel is the source pixel at the mapped offset |
| `Crop.CropIgnoresDragDirection` | main_version3.13.py:208-209 | swapping the corners, or only their x or only their y, gives the same box, both as written and corrected |
| `OpenCv.Gray` | main_version3.13.py:119-120 | BGR→gray→BGR keeps the shape, and each pixel has three equal channels holding the luma of the source pixel |
| `OpenCv.Sepia` | main_version3.13.py:133-134 | the sepia filter keeps the shape and works pixel by pixel |
| `Editor.Init` | main_version3.13.py:19-28 | the editor starts with no raster and empty stacks, a valid state |
| `Editor.SaveHistory` | main_version3.13.py:72-75 | with a raster loaded, history grows by one, its top is the current raster and `future` is empty; the older entries and all other fields are unchanged; with none loaded, nothing changes |
| `Editor.Upload` | main_version3.13.py:77-85 | a cancelled dialog changes nothing; otherwise the picked raster becomes original and current, is pushed on top of the old history (not reset), and `future` empties |
| `Editor.Undo` | main_version3.13.py:96-100 | a no-op on an empty history; otherwise the top of history becomes current and the old current goes onto `future`; \|history\|+\|future\| is conserved; validity and the original are kept |
| `Editor.Redo` | main_version3.13.py:102-106 | a no-op on an empty `future`; otherwise the top of `future` becomes current and the old current goes onto history; \|history\|+\|future\| is conserved |
| `Editor.Revert` | main_version3.13.py:108-111 | the current raster becomes the uploaded original, whatever came before, and is committed: pushed on history, `future` emptied |
| `Editor.ApplyNegative` | main_version3.13.py:113-116 | the current raster becomes its negative and is committed; the original is unchanged |
| `Editor.ApplyBw` | main_version3.13.py:118-122 | the current raster becomes its grey version and is committed |
| `Editor.ApplySketch` | main_version3.13.py:124-127 | the current raster becomes the sketch output and is committed |
| `Editor.ApplySepia` | main_version3.13.py:129-136 | the current raster becomes its sepia version and is committed |
| `Editor.DrawLine` | main_version3.13.py:163-170 | a stroke changes only the current raster (line between the mapped points): the stacks, original and ratio are untouched; the new last point is the event point |
| `Editor.DrawLineKeepsRatioFresh` | main_version3.13.py:163-170 | a stroke keeps the raster's shape, so a stored ratio that belonged to the current raster still does |
| `Editor.DrawText` | main_version3.13.py:183-188 | text is stamped at the mapped click point and the result is committed |
| `Editor.CropEnd` | main_version3.13.py:207-214 | the corrected crop becomes current and is committed, and the stored ratio is the one for the cropped raster |
| `Editor.CropEndAsWritten` | main_version3.13.py:207-214 | as written, the crop replaces the current raster; the handler raises exactly when that raster cannot be shown, leaving both stacks and the ratio as they were; the original is always kept; for every press on the canvas it raises and leaves an invalid state |
| `Editor.AdjustBrightness` | main_version3.13.py:219-224 | the preview leaves original, current raster, history and `future` unchanged; it shows nothing before an upload and otherwise the brightness-adjusted current raster |
| `Editor.BlurKernel` | main_version3.13.py:229-234 | no kernel exactly for values below 2; otherwise the kernel is odd, at least 3, and equals the value or the even value plus one |
| `Editor.ApplyBlur` | main_version3.13.py:226-236 | the preview leaves original, current raster, history and `future` unchanged; it shows the current raster when there is no kernel and its blur otherwise |
| `Editor.PreviewsChangeNothing` | main_version3.13.py:219-236 | both previews show a raster of the current raster's shape, so when the stored ratio belongs to the current raster they leave the entire state as it was |
| `HistoryLaws.UndoThenRedo` | main_version3.13.py:96-106 | when the stored ratio belongs to the current raster, redo right after an undo restores the entire state |
| `HistoryLaws.RedoThenUndo` | main_version3.13.py:96-106 | when the stored ratio belongs to the current raster, undo right after a redo restores the entire state |
| `HistoryLaws.FirstUndoAfterCommitKeepsPixels` | main_version3.13.py:96-99 | when the top of history is the current raster, as after every commit, undo leaves the same raster current and only moves one copy across |
| `HistoryLaws.UndoSkipsUnsavedStroke` | main_version3.13.py:96-106 | a stroke after a commit is not in history, so one undo brings back the committed raster; the stroked raster moves onto `future`, and a redo brings it back |
| `HistoryLaws.ApplyEdits` | main_version3.13.py:72-75 | a run of committing actions only grows history, by one raster per action, keeps the original and ends with an empty `future` |
| `HistoryLaws.UndoTimes` | main_version3.13.py:96-99 | k undos within the history make the k-th raster from the top current and leave the rasters below it as history |
| `HistoryLaws.UndoPastPushes` | main_version3.13.py:96-99 | with k rasters on top of `img`, k + 1 undos make `img` current and leave what lay below |
| `HistoryLaws.UndoingEveryEditReturnsToUpload` | main_version3.13.py:77-85 | after an upload and N committing actions, N + 1 undos give back the uploaded raster and the history from before the upload |
| `HistoryLaws.UndoingEveryEditFromStart` | main_version3.13.py:19-28 | from a fresh editor, those N + 1 undos also leave history empty |
| `HistoryLaws.EditAfterUndoDiscardsRedo` | main_version3.13.py:74-75 | an undo makes redo possible; any committing action after it empties `future`, so redo then does nothing |
| `HistoryLaws.SepiaNegativeScenario` | main_version3.13.py:96-106 | load, sepia, negative: the first undo still shows the negative, the second shows sepia, the third the upload; two redos return to sepia, then to the negative |
| `Background.BgrToRgb` | backgroundRemoval.py:10 | channel c of the RGB raster is channel 2 − c of the source; the shape is kept |
| `Background.RgbPlaneIsReversedBgrPlane` | backgroundRemoval.py:10 | plane c of the RGB conversion is BGR plane 2 − c |
| `Background.Resize3` | backgroundRemoval.py:11 | the resized raster has exactly the requested height and width and 3 channels, each channel resized from its own plane |
| `Background.ToInputTensor` | backgroundRemoval.py:12-14 | the tensor is 1×3×320×320 and `t[0][c][y][x]·255` is the sample at row y, column x, channel c |
| `Background.Preprocess` | backgroundRemoval.py:10-14 | whatever the source size, the model input is 1×3×320×320 with every value in [0, 1] |
| `Background.PreprocessLayout` | backgroundRemoval.py:10-14 | tensor channel c is the resized BGR plane 2 − c divided by 255: channel 0 is the source's red |
| `Background.Prediction` | backgroundRemoval.py:16 | the map used is output 0, batch 0, channel 0; it is absent exactly when one of those axes or the map is empty |
| `Background.OnlyFirstMapMatters` | backgroundRemoval.py:16 | two models that agree on that first map give the same result |
| `Background.ResizeMap` | backgroundRemoval.py:17 | the map resized to `(W, H)` has H rows of W values |
| `Background.Mask` | backgroundRemoval.py:18 | the mask is 255 exactly where the saliency is strictly above 0.5, and 0 exactly where it is at most 0.5 |
| `Background.CutoffIsBackground` | backgroundRemoval.py:18 | a saliency of exactly 0.5 gives mask 0 |
| `Background.Merge` | backgroundRemoval.py:19-20 | the merged raster keeps the source's B, G, R in channels 0–2 and puts the mask in channel 3 |
| `Background.RemoveBackground` | backgroundRemoval.py:9-21 | the result has the source's height and width; B, G, R are unchanged; alpha is 0 or 255, and 255 exactly where the resized map is above 0.5; it fails exactly when the model gives no first map |

## Findings

| source | as written | input that shows it | evidently intended | confidence | as-written member | corrected member |
|---|---|---|---|---|---|---|
| main_version3.13.py:208-212 | `x1, y1 = sorted(xs)` and `x2, y2 = sorted(ys)` put the x pair in `x1, y1` and the y pair in `x2, y2`. The rows are then sliced `[y2:y1]` or `[y1:y2]`, whichever starts at or above its stop, and the columns `[x1:x2]` run from min x to min y. | A drag from canvas (0, 0) to (2, 2) at ratio 1 gives zero rows instead of a 2×2 raster. Every drag gives zero rows, since the press is always on the canvas, and `display_image` then raises. | rows `[min y : max y]` and columns `[min x : max x]`, each mapped by the ratio | high (not executed) | `Crop.CropAsWrittenLosesSquare` | `Crop.CropIntended` |

`Crop.BoxAsWritten`, `Crop.CropAsWritten` and `Editor.CropEndAsWritten` model the code as
written. `Crop.CropAsWrittenLosesSquare` shows the discrepancy on the concrete drag above. The
editor's `Editor.CropEnd` and the history laws use the corrected `Crop.BoxIntended`.

## Left out

- Tk UI: widgets, the canvas preview drawing and event binding. This covers `setup_ui`,
  `enable_drawing`, `start_draw`, `add_text`, `place_text`, `start_crop`, `crop_start` and
  `crop_draw`. The drag and click points reach the model as parameters.
- `display_image` beyond the ratio it stores. The RGB conversion, resize and Tk photo only
  affect the screen.
- `save_image` and `cv2.imwrite`, the file dialogs and `cv2.imread`: this is file I/O.
  `Editor.Upload` takes the decoded raster, or `None` for a cancelled dialog.
- `load_u2net_model` and the onnxruntime session: a foreign inference engine, so it is the
  `run` parameter of `Background.Backend`. A runtime error inside the session is not modelled.
- `pick_color`, `rgb_to_hex` and `convert_rgba_to_pil_image`: colour and format glue for the
  UI. The draw colour is a parameter of the drawing transitions.
- `OpenCv.Gray`, `OpenCv.Sepia` and the sketch, line, text and blur routines: the exact pixel
  values are left uninterpreted. These are the `cvtColor` weights, the float sepia transform,
  `pencilSketch`, the rasterised line and text, and `GaussianBlur`. Only shape preservation
  and per-pixel structure are stated. The sepia kernel's columns are in R, G, B order but are
  applied to B, G, R samples; this is invisible here for the same reason.
- `Background.Resize3` and `Background.ResizeMap`: interpolation values are uninterpreted.
  The shapes are stated.
- Float rounding: scale, ratio and tensor values are exact reals. An off-by-one in
  `int(w * scale)` from binary floating point is not modelled. The float32 division by 255 is
  modelled as exact division.
- `edited_image`: it is set to a copy of the upload and read only as the guard of
  `adjust_brightness`. It is present exactly when `original_image` is, so the guard tests the
  original.
- Crash paths are preconditions rather than behaviour. They cover:
  - a filter, stroke, text or revert before any upload;
  - `imread` returning `None`;
  - a raster whose shown height or width truncates to 0;
  - a stroke before its first click;
  - a crop whose corrected result cannot be shown;
  - an empty source in `remove_background`.
- What follows a raised crop. `Editor.CropEndAsWritten` returns the state holding the empty
  raster, which is not `Editor.Valid`, and no transition is modelled from it. In the program an
  undo there would push the empty raster onto `future`.
- A failure of `remove_background` is an absent result, not an exception. The editor never
  calls this function.
