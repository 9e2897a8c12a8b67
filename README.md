# Object detection helpers of the htv assistive camera app

This project models the deterministic core of a hackathon app that helps
visually impaired users find objects. A camera frame goes to the Gemini
vision model, which returns boxes `[ymin, xmin, ymax, xmax]` on a 0-1000
scale with labels. The backends and scripts turn those boxes into screen
fractions, pixel rectangles, distance estimates, segmentation overlays and
file names. The React app derives its accessibility theme from three
settings.

The project has one module per piece of the program:

- `Wrappers` (wrappers.dfy): `Option` and `Result`. `Result.Raised` is an
  exception together with its message.
- `Text` (text.dfy): the Python string operations the code relies on:
  - `split` on one character and `in`
  - `startswith` and `removeprefix`
  - `lower`
  - `splitlines` (all of Python's line boundaries, `\r\n` counted as
    one) and `"\n".join`
  - decimal formatting of an index
- `DataUrl` (data_url.dfy): removal of a `data:` URL header, as defined in
  section 3 of RFC 2397, by keeping the text after the first comma.
- `Boxes` (boxes.dfy): the JSON shape of one model box, the coordinate read
  that raises `KeyError`, `IndexError` or `TypeError`, Python's `int()`
  truncation, and the 0-1000 to pixel conversion.
- `FrameHandler` (frame_handler.dfy): the `process_frame` Socket.IO handler
  of the Flask backend (`handle_frame` in src/app.py). It is a method with
  a loop, proved against the specification function `ConvertAll`.
- `DistanceServer` (distance.dfy): the table of known object sizes, the
  pinhole distance formula and the `detect_frame` handler of
  src/detection2.py.
- `FrameLoop` (frame_loop.dfy): the webcam script detection2.py. Its loop
  variables become the class `DetectionLoop`. `Step` is one iteration and
  `Run` is the `while True` loop. Both are proved against the functions
  `Next` and `RunFrom`.
- `Segmentation` (segmentation.dfy): covers `parse_json`, the skip rules
  and file names of `extract_segmentation_masks`, and its overlay painting
  loops over a 2-D array.
- `Theme` (theme.dfy): the theme context of the React app.

The foreign calls are replaced in three ways. Base64 decoding, PIL image
opening and the Gemini call of the two Socket.IO handlers are function
parameters of the methods, each from its input to `Option` or `Result`, so
the stages keep their order and their error paths. The webcam script's
camera read, pressed key and parsed model answer arrive with each frame as
fields of a `FrameLoop.FrameInput`, and the segmentation script's resized
masks are given 2-D arrays. Text-to-speech is assumed to return: the
handler hands back the list it would speak. Python floats are exact `real`s. `int()` is truncation
toward zero, written out as `Boxes.Trunc`.

The app's camera screen (hackthevalley/app/camera-page/index.jsx:5-16)
renders only a text label; the repository holds no client code that
streams frames, throttles them or reconnects, so none is modelled.

## Model

| member | source | states |
|---|---|---|
| DataUrl.StripDataUrl | src/app.py:115-116 | without a comma the string is unchanged; with one, the result is the comma-free text that starts right after the first comma and runs to the second comma or the end; the result never holds a comma |
| DataUrl.StripIdempotent | src/app.py:115-116 | stripping an already stripped string changes nothing |
| DataUrl.StripHeader | src/detection2.py:134-135 | a comma-free header such as `data:image/jpeg;base64` followed by a comma and a comma-free payload leaves exactly the payload |
| Text.SplitSecond | src/app.py:116 | `split(',')[1]` is the comma-free stretch right after the first comma, up to the next comma or the end |
| Text.Split | src/app.py:116 | `split(',')` gives at least one part and at least two exactly when the separator occurs; the first part is the text before the first separator; no part holds the separator |
| Text.Lower | src/detection2.py:94 | `lower()` keeps the length and maps each character, lowering exactly A-Z |
| Text.LowerIdempotent | src/detection2.py:94 | a lowered label is lower case, and lowering it again changes nothing |
| Text.StartsWith | src/segmentation.py:66 | `s.startswith(p)` holds exactly when `s` is `p` followed by the rest of `s` |
| Text.StartsWithAppend | src/segmentation.py:66 | a text starts with any prefix it is built from |
| Text.RemovePrefix | src/segmentation.py:70 | with the prefix present, the prefix followed by the result is the input; without it the input is unchanged |
| Text.SplitLines | src/segmentation.py:15 | `splitlines()` of the empty text is empty and no line holds a line boundary |
| Text.SplitLinesFirst | src/segmentation.py:15 | a boundary-free first line followed by any one line boundary (`\r\n` counted as one) splits off as the first line, and the rest is split the same way |
| Text.SplitLinesDropsFinalBoundary | src/segmentation.py:15 | a line boundary at the very end of a text does not add an empty last line |
| Text.Join | src/segmentation.py:18 | `"\n".join`: empty for no parts, the part itself for one, and otherwise the first part and the separator start the result; `JoinAppend` and `SplitLinesJoin` carry the rest |
| Text.SplitLinesJoin | src/segmentation.py:15-18 | joining boundary-free lines with newlines (the last one nonempty) and splitting them again gives the same lines back |
| Text.Decimal | src/segmentation.py:92 | `str(i)` is a nonempty run of digits, one digit long exactly for numbers below 10, ending in the last digit of `i` |
| Text.DecimalInjective | src/segmentation.py:92-93 | two indices with the same decimal text are equal |
| Boxes.GetOr | src/app.py:176-177 | `bbox.get(key, default)`: a present value passes through, a missing one gives the default (the label default `object` is shared by all three backends) |
| Boxes.ReadBox | src/app.py:162-165 | reading `box_2d[0..3]` succeeds exactly when there are four coordinates and all are numbers, giving them in order; it is an `IndexError` exactly for a short list of numbers, otherwise a `TypeError` |
| Boxes.ReadValue | src/app.py:162-165 | a list is read element by element; `""` and an object give an `IndexError`/`KeyError`; a non-empty string, a number, a boolean or `null` give a `TypeError` |
| Boxes.ReadRawBox | src/app.py:162 | a missing `box_2d` key is the same skip as a short list, and a list element that is not an object raises `TypeError` |
| Boxes.Trunc | src/detection2.py:161-164 | `int()` of a float truncates toward zero: within 1 below a non-negative value, within 1 above a negative one |
| Boxes.TruncMonotone | src/detection2.py:161-164 | truncation never reverses an order |
| Boxes.ToPixelBounds | src/detection2.py:161-164 | a 0-1000 value lands in 0..dim, and for non-negative values it is the floor of value/1000 times dim |
| Boxes.ToPixel | src/detection2.py:161-164 | `int(v / 1000 * dim)` of a 0-1000 coordinate lies in 0..dim; its floor relation is in `ToPixelBounds` and its monotonicity in `ToPixelMonotone` |
| Boxes.ToPixelMonotone | src/detection2.py:161-164 | a larger model coordinate never gives a smaller pixel |
| Boxes.ToPixelBox | src/detection2.py:161-175 | `coords` is `[x1, y1, x2, y2]`: xmin and xmax scaled by the width, ymin and ymax by the height |
| Boxes.PixelBoxInImage | detection2.py:94-101 | a box on the 0-1000 scale becomes pixel coordinates inside the image, and a well-ordered box stays well ordered |
| FrameHandler.ConvertBox | src/app.py:160-185 | a box is skipped exactly on `KeyError`/`IndexError` and fails exactly on `TypeError`; otherwise x = xmin/1000, y = ymin/1000, x + width = xmax/1000, y + height = ymax/1000, with label default `object` and confidence default 0.9 |
| FrameHandler.ConvertedBoxFractions | src/app.py:160-169 | for 0-1000 input, x, y and the far edges lie in [0, 1]; width or height is negative exactly when max < min, and such a box is still kept |
| FrameHandler.ConvertAll | src/app.py:157-185 | the loop's detections, or failure once a box raises `TypeError`; never more detections than boxes; `ConvertAllIsKept` equates it with an in-order filter |
| FrameHandler.Kept | src/app.py:157-185 | the kept detections are never more than the boxes |
| FrameHandler.ConvertAllIsKept | src/app.py:157-185 | the loop fails exactly when some box raises `TypeError`; otherwise it keeps exactly the well-formed boxes, converted, in input order |
| FrameHandler.KeptAllConverted | src/app.py:157-185 | with all boxes well-formed there is one detection per box, each from the box at the same position |
| FrameHandler.ConvertAllFailurePersists | src/app.py:158-185 | once a box raised, the whole loop has failed |
| FrameHandler.HandleFrame | src/app.py:97-201 | exactly one event is emitted on every path: `No image provided` for a missing or empty image, `Invalid base64 image`, `Failed to process image`, `AI model error: ` plus the message, `Server error occurred` for a `TypeError` in the loop, and otherwise a result with success true, the loop's detections, their count and the payload's timestamp |
| DistanceServer.DistanceToCamera | src/detection2.py:86-89 | `None` exactly when the apparent size is 0; otherwise distance times apparent size equals known size times focal length |
| DistanceServer.EstimateObjectDistance | src/detection2.py:92-110 | an unknown lower-cased label gives `None`; a known one uses the table height, the focal length 350 and the box height `y2 - y1` |
| DistanceServer.KnownObjectsLowerCase | src/detection2.py:53-63 | every key of `KNOWN_OBJECTS` is lower case, so the lowered lookup matches any casing of a key |
| DistanceServer.EstimateCaseInsensitive | src/detection2.py:94 | labels that differ only in case get the same estimate |
| DistanceServer.EstimateIgnoresWidth | src/detection2.py:101-110 | boxes of the same height get the same estimate; the width is never used |
| DistanceServer.TallerIsCloser | src/detection2.py:86-110 | for a known label and positive heights, a taller box gives a strictly smaller positive distance |
| DistanceServer.EstimateNeverZero | src/detection2.py:53-63 | no table height is zero, so an estimate is never 0 |
| DistanceServer.DistanceMeters | src/detection2.py:178 | `distance_m` is `None` exactly when `distance_cm` is `None` or zero, and otherwise it is `distance_cm / 100` |
| DistanceServer.DetectOne | src/detection2.py:161-181 | a box yields an object exactly when `box_2d` reads; then `coords` are the pixel box, the label defaults to `object`, the distance is the estimate for that box, and metres are present exactly with centimetres |
| DistanceServer.HandleDetectFrame | src/detection2.py:127-197 | nothing is emitted when the image is missing or fails to decode, open or be analysed; an emitted result has success true, the image size, and one object per box in input order, with count and the speech list the same length; when every box reads, the result is emitted |
| FrameLoop.KeyCode | detection2.py:60 | `waitKey(1) & 0xFF` lies in 0..255 and agrees with the raw key modulo 256 |
| FrameLoop.ToLabeledBox | detection2.py:94-103 | `coords` is the pixel box `[x1, y1, x2, y2]`, and the label defaults to `object` |
| FrameLoop.Rebuilt | detection2.py:92-108 | the list is rebuilt in input order from the readable boxes up to the first box that raises, where the rebuild stops and keeps what it has |
| FrameLoop.Next | detection2.py:45-108 | one iteration: a failed read stops the loop with the state untouched, and an iteration that goes on has counted its frame; the full rules are in `NextSpec` |
| FrameLoop.NextSpec | detection2.py:45-108 | a failed read stops the loop and changes nothing; each grabbed frame adds 1 to the counter; only a failed read or `q` stops; `s` forces processing, otherwise only auto mode on a multiple of 60 fires, and `q` never processes; only `a` flips auto mode; the boxes change only when a processed frame got an answer |
| FrameLoop.ToggleTwiceRestores | detection2.py:66-67 | two frames with `a` restore the auto-detect mode |
| FrameLoop.NextStopsAndCounts | detection2.py:45-62 | an iteration goes on exactly when the frame was read and the key is not `q`, and it counts the frame exactly when it was read |
| FrameLoop.RunFrom | detection2.py:44-108 | the `while True` loop over a run of frames consumes at most the frames it is given and at least one of a non-empty run; where it stops is in `RunStopsAtFirstStop`, the count in `RunCountsGrabbed` |
| FrameLoop.RunStopsAtFirstStop | detection2.py:44-62 | given any non-empty run of frames, the loop consumes at least one, and consumes frames up to and including the first failed read or `q` (all of them when none stops it); it never consumes more frames than it is given |
| FrameLoop.RunCountsGrabbed | detection2.py:44-51 | the counter grows by the number of read frames the loop consumed |
| FrameLoop.DetectionLoop.constructor | detection2.py:38-41 | the counter starts at 0, auto mode off, and no boxes |
| FrameLoop.DetectionLoop.Step | detection2.py:45-108 | one iteration updates the fields to `Next` of the old state and returns whether the loop goes on and whether the frame was processed |
| FrameLoop.DetectionLoop.Run | detection2.py:43-108 | the `while True` loop ends in the state and frame count that `RunFrom` gives |
| Segmentation.FenceLine | src/segmentation.py:16-17 | finds the first line equal to the opening fence, or reports that there is none |
| Segmentation.ParseJson | src/segmentation.py:13-21 | without an opening-fence line the text is returned unchanged; otherwise the lines after the first one are joined with newlines, and later fences do not matter |
| Segmentation.ParseJsonKeepsClosingFence | src/segmentation.py:19-21 | as written, a fenced answer comes back with its closing fence line attached |
| Segmentation.ParseJsonCounterexample | src/segmentation.py:13-21 | ```` ```json\n[]\n``` ```` parses to ```` []\n``` ````, which is not JSON |
| Segmentation.BeforeFirst | src/segmentation.py:19 | `split("```")[0]` is the text before the first closing marker, or the whole text |
| Segmentation.ParseJsonFenced | src/segmentation.py:13-21 | the corrected reading: the same as `ParseJson`, cut before the first closing marker |
| Segmentation.ParseJsonFencedBody | src/segmentation.py:13-21 | the corrected reading returns exactly the body lines of a fenced answer |
| Segmentation.ParseJsonAgreesWithoutClosingFence | src/segmentation.py:13-21 | both readings agree when the text after the opening fence (or the whole text, when there is none) holds no closing marker |
| Segmentation.MaskFileName | src/segmentation.py:92 | `{label}_{i}_mask.png`: starts with the label and an underscore and ends in `_mask.png`; distinctness is in `FileNamesDistinct` |
| Segmentation.OverlayFileName | src/segmentation.py:93 | `{label}_{i}_overlay.png`: starts with the label and an underscore and ends in `_overlay.png`; distinctness is in `FileNamesDistinct` |
| Segmentation.FileNamesDistinct | src/segmentation.py:92-93 | names of different list positions never collide, whatever the labels, and a mask name is never an overlay name |
| Segmentation.ItemBox | src/segmentation.py:53-58 | `item["box_2d"]` on an item that is not an object is a `TypeError`, a missing key a `KeyError`, and otherwise the value is read as the other backends read it |
| Segmentation.ItemPlan | src/segmentation.py:53-93 | the loop body for item `i`: a saved item carries index `i` and a non-empty pixel box; every check is in `ItemPlanSpec` |
| Segmentation.ItemPlanSpec | src/segmentation.py:53-93 | an item that is not an object, lacks `box_2d` or has a bad `box_2d` aborts; an empty or inverted pixel box is skipped exactly when `y0 >= y1` or `x0 >= x1`; past those checks a missing `mask` aborts, a mask without the PNG header is skipped (and only such a mask), and a headed mask is saved exactly when `label` is present, its absence aborting; a saved item has its pixel box, the mask with the header removed once, its list index and its two file names |
| Segmentation.SavedPrefix | src/segmentation.py:52-100 | the items the loop saves over the first `n` items (never more than `n`) and whether it got that far; its order, completeness and stop are in the `SavedPrefix*` lemmas |
| Segmentation.SavedPrefixOrdered | src/segmentation.py:52-100 | saved items come in list order, carry their original list positions (skipped entries still use up indices), and each is what its own item plans |
| Segmentation.SavedPrefixCompleted | src/segmentation.py:52-100 | the loop gets through the first `n` items exactly when none of them raises |
| Segmentation.SavedPrefixGrows | src/segmentation.py:52-100 | files saved over a shorter prefix of the list stay saved, in the same order, over a longer one |
| Segmentation.SavedPrefixComplete | src/segmentation.py:52-100 | every item that passes all checks and comes before the first exception is saved |
| Segmentation.SavedFilesDistinct | src/segmentation.py:52-100 | no two saved items write the same file: different saved items have different mask names and different overlay names, and no item's mask name is any item's overlay name |
| Segmentation.SavedPrefixStops | src/segmentation.py:52-100 | after an exception nothing more is saved |
| Segmentation.NewOverlay | src/segmentation.py:81 | a new overlay has the image's size and every pixel is transparent |
| Segmentation.PaintOverlay | src/segmentation.py:84-89 | a pixel is painted `(255, 255, 255, 200)` exactly when it lies in the box and its mask value exceeds 128; every other pixel is unchanged |
| Segmentation.MaskOverlay | src/segmentation.py:80-89 | an item's overlay shows exactly the mask's pixels over the box, on a transparent background |
| Segmentation.ExtractSegmentationMasks | src/segmentation.py:52-100 | the saved items and the early stop are those of `SavedPrefix`; each saved item gets a fresh overlay that shows exactly its mask |
| Theme.FontSizeMultiplier | hackthevalley/contexts/ThemeContext.js:58-64 | 0.95 for `small`, 1.25 for `large`, 1 for anything else |
| Theme.MultiplierRange | hackthevalley/contexts/ThemeContext.js:59-64 | the multiplier is one of 0.95, 1 and 1.25, and 1 exactly for settings other than small and large |
| Theme.DeriveStyles | hackthevalley/contexts/ThemeContext.js:32-67 | the colours depend only on high contrast (sand palette or high-contrast palette); the font family is `DyslexiaFont` exactly when the dyslexia font is on, and otherwise absent |
| Theme.ColorsTellContrast | hackthevalley/contexts/ThemeContext.js:33-51 | the palettes differ in every colour, so two states have the same colours exactly when they agree on high contrast |
| Theme.ToggleHighContrast | hackthevalley/contexts/ThemeContext.js:29 | flips high contrast and nothing else |
| Theme.ToggleDyslexiaFont | hackthevalley/contexts/ThemeContext.js:30 | flips the dyslexia font and nothing else |
| Theme.SetFontSize | hackthevalley/contexts/ThemeContext.js:27 | sets the font size to any value and nothing else |
| Theme.TogglesInvolutive | hackthevalley/contexts/ThemeContext.js:29-30 | each toggle applied twice restores the state, and the two toggles commute |
| Theme.TogglesTouchOneStyle | hackthevalley/contexts/ThemeContext.js:29-67 | toggling contrast changes the colours and nothing else of the styles; toggling the font changes only the font family |
| Theme.ProviderValue | hackthevalley/contexts/ThemeContext.js:69-79 | the provider passes the state through with the styles derived from it |
| Theme.DefaultMatchesInitialProvider | hackthevalley/contexts/ThemeContext.js:3-27 | the context default equals what a provider supplies in its initial state (off, off, `medium`) |

## Left out

- Floating point: coordinates, fractions and distances are exact reals, so float rounding is not modelled, and neither is `round(..., 2)` on `distance_m` (src/detection2.py:178).
- Huge JSON numbers that overflow to `inf` are not modelled: `int(inf)` raises `OverflowError`.
- Text.Lower: lowers ASCII letters only. Python's `lower()` also maps non-ASCII letters, for example the Kelvin sign to `k`.
- Non-string `image`, `label` and `mask` values and non-number `confidence` values are not modelled: each is a string (or number) or absent. The shapes of the box JSON are modelled: a list element that is not an object, a `box_2d` that is a list, a string, an object or a scalar, and coordinates that are numbers or not. A top-level JSON object, which Python iterates by its keys, is the list of those keys, each an element that is not an object.
- Base64 decoding, PIL image opening, resizing and saving, the Gemini calls, cv2 capture, keys and drawing are all foreign. They appear only as parameters or given arrays, and a failed mask decode or resize in the segmentation loop is not modelled.
- DistanceServer.HandleDetectFrame: assumes the text-to-speech call returns. src/txtspeech.py:7 declares two parameters but src/detection2.py:182 passes one; that raises `TypeError` before the emit. The audio bytes are left out of the result, and text-to-speech itself is not part of this model.
- The error path of `handle_detect_frame` returns a Flask `jsonify` response from a socket handler. It is modelled as "nothing emitted".
- `handle_frame` reads `width`, `height` and `cameraFacing` only to log them, and its result carries `processingTime: None`. These fields are left out of `Payload` and `Event`.
- Logging, console output and the `os.path.join` of the output directory are left out.
- Networking and servers are left out: Flask and Socket.IO setup, CORS, the connect, disconnect and ping handlers, and the health routes.
- The Gemini model-probing loops at start-up are left out because they are calls into the remote service.
- `find_marker` and the webcam script's drawing and display after the state update (detection2.py:110-141) are left out; they are rendering only.
- Theme: the default context's toggles and `setFontSize` do nothing; that is visible in `DefaultContext` only through its state fields. React's rendering, `useMemo` caching and font loading are left out.
- Segmentation.ItemPlan: reads the label before painting rather than after; an item without a label raises before either of its files is saved, so the saved files are the same.

## Findings

| source | as written | input that shows it | evidently intended | confidence | as-written member | corrected member |
|---|---|---|---|---|---|---|
| src/segmentation.py:19-21 | the text before the closing fence is computed into `output`, but `json_output`, which still holds the closing fence, is returned | ```` ```json\n[]\n``` ```` gives ```` []\n``` ````, which `json.loads` rejects | return the body cut before the closing fence, as the comment on that line says | not executed | Segmentation.ParseJsonCounterexample | Segmentation.ParseJsonFencedBody |
