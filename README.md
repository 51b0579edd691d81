# cvlab core, modelled in Dafny

This project models the decision logic of a small computer-vision playground. The playground feeds camera frames through interchangeable "inference" units and shows the results.

The model covers these parts:

- the `StereoVision` calibration state machine: wait for the operator, take chessboard snapshots at least three seconds apart, compute the camera parameters, then undistort every frame;
- `OpticalFlow`, which keeps a previous frame, tracked points and a drawing mask per image slot;
- the display knobs of `Segmentation`;
- `create_stream`, which decides what kind of stream an identifier names;
- the image layer: `get_type`, the conversion table and `convert`'s direct-or-one-hop routing, and the `Image` wrapper with its per-format cache;
- the AWS Rekognition response parsers and the visualiser's colour cache.

Pixel data is never inspected. A frame is an opaque value. Each OpenCV, NumPy or PIL call the source makes on pixels is a constructor of `Frames.Pixels`, so it acts as an uninterpreted function of its arguments (`Grey`, `Drawn`, `Added`, `Undistorted`, `Converted` and so on). Oracles become parameters:

- chessboard detection is a per-slot `Option<Corners>`. The corners drawn on the annotated image are `cornerSubPix` of the grey frame and those corners (the `ChessboardCorners` mark), while the stored corners stay unrefined, as in the source;
- `goodFeaturesToTrack` and `calcOpticalFlowPyrLK` are function parameters;
- `os.path.isfile` is a predicate parameter;
- `randint` is a stream of random colours;
- `time.time()` is a `now` parameter.

Each state-changing class of the source is a Dafny class with the same fields. Each of its methods is proved to leave the fields as a pure specification function of the old state (`Depth.Tick`, `Classic.Flow`, `Segment.Command`, `Aws.Assign`, …). The lemmas about those functions carry the properties.

The model follows the code as written, including its quirks:

- An accepted snapshot adds 1 + 3 per image to `snapshot_count`.
- Each slot receives four copies of its corners.
- Every slot's snapshot list receives the annotated image of the last slot, because the loop variable `img` outlives its loop.
- The parameters are computed on the tick after the count reaches 8, not on the tick that reaches it.
- In the resulting calibration both cameras use the second camera's image size (`Depth.CalibrationScenario`).
- Each detection label includes the item's own `Name`. The docstring example of `parse_rek_detect` (src/cloud/aws.py:176) leaves it out. The code's first docstring example, `Person`, can only come out with it included.
- `parse_rek_text` reads `Type` without checking for it first, so a missing `Type` is a `KeyError`, not a `ValueError`.
- The conversion table has no path into PILLOW, so `aspil()` fails for every image that was not created from a PIL image (`Images.ViewsOfFormats`). `AWSInference.visualise` calls `aspil()` on its input at src/cloud/aws.py:79, before either `try`. So for frames from an OpenCV camera it raises `ValueError` before any parsing, colour caching or drawing. `Aws.AwsVisualiser.VisualiseDetections` and `Aws.AwsVisualiser.VisualiseFaces` start after that call, at line 81, and take the PIL image's size as a parameter.

## Model

| member | source | states |
|---|---|---|
| Keys.KeyInjective | src/inference/classic.py:38-39 | distinct slot indices give distinct `str(i)` keys, so slots never share state |
| Convert.GetType | src/images/convert.py:10-22 | an ndarray with `opencv` is OPENCV, another ndarray NUMPY, a PIL image PILLOW; anything else is a `ValueError`; the type is never UNSET |
| Convert.SearchVia | src/images/convert.py:47-62 | a found route goes through a candidate with table entries into and out of it; the search fails exactly when no candidate has both |
| Convert.Candidates | src/images/convert.py:47 | the candidates are exactly the formats other than UNSET, source and target |
| Convert.FindRoute | src/images/convert.py:37-62 | the route `convert` takes: direct exactly when the table has the pair, otherwise through an admissible intermediate; it fails exactly when neither exists |
| Convert.ConvertImage | src/images/convert.py:35-63 | a direct table entry is applied alone; otherwise the result is the two-step conversion through an admissible intermediate, which exists exactly when the conversion succeeds; the only error is "cannot convert" |
| Convert.HopUnique | src/images/convert.py:26-32 | with this table at most one intermediate format qualifies for any pair |
| Convert.RouteIndependentOfOrder | src/images/convert.py:47-59 | the iteration order of the candidate set does not change the route taken |
| Convert.TableRoutes | src/images/convert.py:26-63 | PILLOW→OPENCV goes via NUMPY; NUMPY→PILLOW and OPENCV→PILLOW fail; the three table pairs are direct |
| Convert.ReachableFormats | src/images/convert.py:26-63 | every real format converts to OPENCV and to NUMPY; no other format converts to PILLOW |
| Images.View | src/images/image.py:42-54 | what `get(t)` yields: the original data for its own format; the only errors are "unsupported type" and "cannot convert" |
| Images.ViewsOfFormats | src/images/image.py:42-63 | every image has a NUMPY and an OPENCV view, a PILLOW view only if it was created from PIL data, and UNSET is unsupported |
| Images.Image.Wrap | src/images/image.py:24-37 | the original data fills the slot of its own format and every other slot is empty |
| Images.Image.Create | src/images/image.py:15-40 | creation fails with `ValueError` exactly for a value that is not an image; otherwise the slot of `get_type`'s format holds the data |
| Images.Image.Get | src/images/image.py:42-54 | `get` returns the view of the original in the requested format; it fills an empty slot with the conversion, never changes a filled slot, and leaves the cache alone when it raises |
| Images.Image.AsNumpy | src/images/image.py:56-57 | always succeeds, with the NUMPY view, and caches it in the NUMPY slot; the other slots are unchanged |
| Images.Image.AsOpenCV | src/images/image.py:59-60 | always succeeds, with the OPENCV view, and caches it in the OPENCV slot; the other slots are unchanged |
| Images.Image.AsPil | src/images/image.py:62-63 | succeeds exactly for images created from PIL data, caching the view in the PILLOW slot; on failure the cache is unchanged |
| Depth.BoardPoints | src/inference/multiview/depth.py:117-119 | the board has 10 × 7 corner points |
| Depth.BoardGrid | src/inference/multiview/depth.py:117-119 | corner (c, r) sits at index r · 10 + c, at (2.47 c, 2.47 r, 0): the column index varies fastest, as `mgrid(...).T.reshape` lays it out |
| Depth.WorldPoints | src/inference/multiview/depth.py:120 | one copy of the board per expected snapshot, 8 in all |
| Depth.AppendCopiesShape | src/inference/multiview/depth.py:102-107 | each slot below n gets four more copies of its own element at the end of its list; other slots are untouched |
| Depth.FoundMapAt | src/inference/multiview/depth.py:73-87 | a slot whose pattern was found holds its corners in `all_corners` |
| Depth.FoundMapFull | src/inference/multiview/depth.py:97 | `len(all_corners) == len(images)` holds exactly when every image showed the pattern |
| Depth.Keystroke | src/inference/multiview/depth.py:160-164 | `handle_keystroke` on the session; its effects are stated by `Depth.KeystrokeEffects` and `Depth.KeystrokeConsistent` |
| Depth.Accept | src/inference/multiview/depth.py:97-107 | the update of an accepted snapshot; stated by `Depth.AcceptShape` and `Depth.AcceptedSnapshot` |
| Depth.Calibrate | src/inference/multiview/depth.py:113-132 | step 3: every slot calibrated from the world points, its corners and its first snapshot's size, then RUNNING; stated by `Depth.ComputeStep` (only then) and `Depth.CalibratingComputes` (always then) |
| Depth.CalibrationTick | src/inference/multiview/depth.py:53-137 | `process_calibration`: the three steps waiting, snapshot and compute; stated by `Depth.IdleTick`, `Depth.RejectedSnapshot`, `Depth.AcceptedSnapshot`, `Depth.SnapshotSpacing`, `Depth.ComputeStep` and `Depth.CalibratingComputes` |
| Depth.StereoTick | src/inference/multiview/depth.py:139-158 | `process_stereo`: the frames undistorted slot by slot, or the `KeyError` of a slot without parameters; stated by `Depth.RunningOutputs` |
| Depth.Tick | src/inference/multiview/depth.py:38-51 | `process`: the image-count check, then calibration or stereo by stage; its invariant is `Depth.TickConsistent` |
| Depth.KeystrokeEffects | src/inference/multiview/depth.py:160-164 | 'c' resets from any stage; ' ' moves CALIBRATE_WAIT to CALIBRATING and does nothing elsewhere; other keys change nothing |
| Depth.KeystrokeConsistent | src/inference/multiview/depth.py:28-36 | keystrokes keep the session invariant |
| Depth.AcceptShape | src/inference/multiview/depth.py:97-107 | an accepted snapshot adds four copies of each slot's corners to that slot and four copies of the last annotated image to every slot |
| Depth.TickConsistent | src/inference/multiview/depth.py:38-137 | every tick keeps the invariant: counts are multiples of 7, each slot holds 4 entries per accepted snapshot, both slots hold the same snapshots, and the parameters are present exactly in RUNNING |
| Depth.ReachableConsistent | src/inference/multiview/depth.py:25-164 | every session reachable from a fresh unit through key presses and ticks satisfies the invariant |
| Depth.WrongCountRejected | src/inference/multiview/depth.py:42-43 | anything but two images raises and changes nothing |
| Depth.IdleTick | src/inference/multiview/depth.py:57-69 | while waiting, or within 3 s of the last snapshot, the tick returns the inputs keyed "0" and "1" and changes nothing |
| Depth.AnnotateInjective | src/inference/multiview/depth.py:83-93 | the annotated image of a slot determines the frame and the detection: the sub-pixel refined corners and a green border when the pattern was found, only a red border otherwise |
| Depth.RejectedSnapshot | src/inference/multiview/depth.py:73-97 | a snapshot attempt in which some image lacks the pattern records nothing, and once the 3-second window has passed returns the annotated images keyed by slot |
| Depth.AcceptedSnapshot | src/inference/multiview/depth.py:73-107 | an accepted snapshot restarts the timer, adds 7 to the count and four copies of each slot's corners, and returns the annotated images keyed by slot |
| Depth.AcceptConsistent | src/inference/multiview/depth.py:97-107 | the accepted-snapshot update keeps the session invariant: the count stays a multiple of 7 and each slot gets 4 more entries |
| Depth.SnapshotSpacing | src/inference/multiview/depth.py:67-100 | the count changes only on a tick at least 3 s after the last snapshot, and that tick restarts the timer |
| Depth.ComputeStep | src/inference/multiview/depth.py:113-132 | RUNNING is entered only from CALIBRATING with a count of at least 8; both slots are then calibrated from exactly 8 views, with the size of the slot's first snapshot |
| Depth.CalibratingComputes | src/inference/multiview/depth.py:112-137 | every CALIBRATING tick that starts with a count of at least 8 calibrates both slots, enters RUNNING with exactly the computed parameters, and returns the input images |
| Depth.ReachingTargetDefersCompute | src/inference/multiview/depth.py:64-113 | the tick that brings the count to 8 leaves the stage CALIBRATING |
| Depth.RunningOutputs | src/inference/multiview/depth.py:139-158 | in RUNNING a tick returns each frame undistorted with its own slot's parameters |
| Depth.FirstSnapshot | src/inference/multiview/depth.py:53-107 | from a fresh unit, ' ' then a tick with both patterns gives count 7 and four copies of each slot's corners |
| Depth.SecondSnapshot | src/inference/multiview/depth.py:53-107 | a second accepted tick 3 s later gives count 14 and eight copies |
| Depth.CalibrateTwoSnapshots | src/inference/multiview/depth.py:113-132 | the next tick calibrates both slots and enters RUNNING |
| Depth.CalibrationScenario | src/inference/multiview/depth.py:53-137 | a full run: both cameras calibrated from eight copies of their own corners, both with the second camera's image size |
| Stereo.StereoVision.constructor | src/inference/multiview/depth.py:25-26 | a new unit is in the reset state |
| Stereo.StereoVision.ResetCalibration | src/inference/multiview/depth.py:28-36 | stage CALIBRATE_WAIT, timer and count 0, no snapshots, corners or parameters |
| Stereo.StereoVision.HandleKeystroke | src/inference/multiview/depth.py:160-164 | the fields become the keystroke function of the old fields, keeping the invariant |
| Stereo.StereoVision.Process | src/inference/multiview/depth.py:38-51 | the fields and outputs are those of one tick of the specification, keeping the invariant |
| Stereo.StereoVision.ProcessCalibration | src/inference/multiview/depth.py:53-137 | the fields and outputs are those of the calibration tick |
| Stereo.StereoVision.DetectAll | src/inference/multiview/depth.py:73-95 | the loop yields the annotated outputs, the found corners and the last slot's annotated image |
| Stereo.StereoVision.RecordSnapshot | src/inference/multiview/depth.py:97-107 | the fields become the accepted-snapshot update |
| Stereo.StereoVision.AppendCopiesOf | src/inference/multiview/depth.py:105-107 | four copies appended to the slot's corners and snapshots; nothing else changes |
| Stereo.StereoVision.ComputeParams | src/inference/multiview/depth.py:113-132 | the fields become the calibration step |
| Stereo.StereoVision.ProcessStereo | src/inference/multiview/depth.py:139-158 | undistorted frames keyed by slot, or `KeyError` when a slot has no parameters |
| Classic.Colour | src/inference/classic.py:23 | the colour index of a track always lies within the 100-row table, so every line and dot drawn uses a row of it |
| Classic.GoodPoints | src/inference/classic.py:59 | the good points are exactly the positions the tracker returned with status 1, and no more than the tracked points |
| Classic.GoodPointsAppend | src/inference/classic.py:59 | the status filter works entry by entry, so it keeps the tracker's order |
| Classic.Selected | src/inference/classic.py:60 | `points_prev[status == 1]`: the old positions of the points tracked successfully, in order |
| Classic.Zip | src/inference/classic.py:63 | `zip` of two equally long sequences pairs them index by index |
| Classic.GoodPairs | src/inference/classic.py:59-63 | no more drawn tracks than tracked points |
| Classic.GoodPairsZip | src/inference/classic.py:59-63 | the drawn tracks are `zip(points[status == 1], points_prev[status == 1])`: the good new positions in order, each with the old position of the same point |
| Classic.GoodPairsIff | src/inference/classic.py:59-63 | (a, b) is drawn exactly when some point i came back with status 1 at a and was at b before |
| Classic.Reset | src/inference/classic.py:28-31 | the reset state has all three dictionaries empty, hence aligned |
| Classic.Advance | src/inference/classic.py:42-74 | one non-`None` image for one slot; stated by `Classic.AdvanceEffects` |
| Classic.Flow | src/inference/classic.py:33-78 | `process` over all inputs; stated slot by slot by `Classic.FlowSlot` and `Classic.FlowOutputKeys` |
| Classic.Keystroke | src/inference/classic.py:80-83 | `handle_keystroke`; stated by `Classic.KeystrokeEffects` |
| Classic.FlowPrefix | src/inference/classic.py:36-78 | the three dictionaries keep the same keys through the loop |
| Classic.PresentKeysIff | src/inference/classic.py:38-40 | slot `str(i)` is present exactly when i is in range and its image is not `None` |
| Classic.FlowOutputKeys | src/inference/classic.py:38-76 | outputs are keyed by exactly the slots whose image is not `None` |
| Classic.FlowSlot | src/inference/classic.py:38-76 | a `None` slot keeps its state; every other slot moves on from its own state alone and outputs what that step gives |
| Classic.AdvanceEffects | src/inference/classic.py:42-74 | the first frame since a reset initialises from the grey frame without tracking; every frame stores its grey frame; when the tracker returns points, the points become the status-1 ones, the mask gains one line per good track and the frame shown has one dot per track with the mask added; when it returns none, the points, mask and shown image are unchanged |
| Classic.StrokeAppend | src/inference/classic.py:66-68 | drawing two runs of marks in turn is drawing them all in order |
| Classic.MaskAccumulates | src/inference/classic.py:63-74 | over two tracked frames the mask holds the first frame's track lines followed by the second's |
| Classic.FlowAfterReset | src/inference/classic.py:28-50 | after a reset every present slot is initialised from its image and shown unchanged; absent slots stay unseen |
| Classic.KeystrokeEffects | src/inference/classic.py:80-83 | 'r' empties all three dictionaries; other keys change nothing |
| Classic.OpticalFlow.constructor | src/inference/classic.py:25-26 | a new unit has no tracking state |
| Classic.OpticalFlow.ResetTracking | src/inference/classic.py:28-31 | all three dictionaries emptied |
| Classic.OpticalFlow.HandleKeystroke | src/inference/classic.py:80-83 | the fields become the keystroke function of the old fields |
| Classic.OpticalFlow.Process | src/inference/classic.py:33-78 | the fields and outputs are those of the specification's pass over the slots |
| Classic.OpticalFlow.ProcessSlot | src/inference/classic.py:42-76 | one slot's fields and output follow the per-slot step |
| Classic.OpticalFlow.TrackStrokes | src/inference/classic.py:63-68 | one line per good track on the mask and one dot on the frame, in order, coloured by `j % 100` |
| Segment.Initial | src/inference/segmentation.py:20-21 | blend starts at 0.75 (3 quarters) with labels shown |
| Segment.Command | src/inference/segmentation.py:36-43 | `handle_command` changes at most one knob and keeps blend within [0, 1] |
| Segment.CommandEffects | src/inference/segmentation.py:36-43 | '-' lowers blend by 0.25 but not below 0; '+' raises it but not above 1; 'l' flips the labels; each key touches only its own field; other keys change nothing |
| Segment.CommandsInRange | src/inference/segmentation.py:36-40 | blend stays within [0, 1] whatever keys are pressed |
| Segment.ToggleTwice | src/inference/segmentation.py:41-43 | pressing 'l' twice restores the knobs |
| Segment.RaiseToFull | src/inference/segmentation.py:39-40 | enough '+' presses reach full blend and leave the labels alone |
| Segment.OtherKeysIgnored | src/inference/segmentation.py:36-43 | a run of non-command keys changes nothing |
| Segment.Segmentation.constructor | src/inference/segmentation.py:19-21 | a new unit has the initial knobs, with the blend in range |
| Segment.Segmentation.HandleCommand | src/inference/segmentation.py:36-43 | the fields become the command function of the old fields, and the blend stays in range |
| Streams.CreateStream | src/streams/utils.py:9-19 | an image stream is opened only for an existing file; an `int()` error is only about the text after `pi`; "unknown stream type" only for a name that is not a file; the full branch order is `Streams.Dispatch` |
| Streams.ParseIntOfKey | src/streams/utils.py:11-13 | `int` reads back a decimal numeral, with or without a sign |
| Streams.Dispatch | src/streams/utils.py:9-19 | the first rule that matches decides: numeric → camera, then `pi` → Pi camera or `int()` error, then `esp` → ESP32 with the rest as address, then an existing file; otherwise "unknown stream type" (each case both ways) |
| Streams.CameraOfIndex | src/streams/utils.py:10-11 | `str(n)` opens camera n whatever files exist |
| Streams.PiCameraOfIndex | src/streams/utils.py:12-13 | `pi<n>` opens Pi camera n, even if such a file exists |
| Streams.PiCameraBadIndex | src/streams/utils.py:12-13 | `pi` followed by a non-integer is an `int()` error, never a file |
| Streams.EspOfAddress | src/streams/utils.py:14-15 | `esp<address>` names that board for every address |
| Aws.Trunc | src/cloud/aws.py:192 | `int()` of a float; its bounds are `Aws.TruncBounds` |
| Aws.TruncBounds | src/cloud/aws.py:192 | `int()` truncates toward zero: the result lies within 1 of x, on the side of zero |
| Aws.TruncAdd | src/cloud/aws.py:192-195 | for non-negative values, truncating each part never gives more than truncating the sum |
| Aws.Pixel | src/cloud/aws.py:192-195 | `int(f * n)` for one coordinate; bounded by `Aws.TruncFraction` and `Aws.TruncExtent` |
| Aws.Scale | src/cloud/aws.py:192-195 | the pixel box `(int(Left·w), int(Top·h), int(Width·w), int(Height·h))`; bounds in `Aws.ScaleInside` and `Aws.ScaleWithin` |
| Aws.TruncFraction | src/cloud/aws.py:192-195 | a fraction of a pixel count truncates to within that count |
| Aws.ScaleInside | src/cloud/aws.py:192-195 | each coordinate and each extent of a box given in fractions lies within the image size |
| Aws.TruncExtent | src/cloud/aws.py:192-195 | an offset and an extent that end within n pixels in fractions still end within n pixels after truncation |
| Aws.ScaleWithin | src/cloud/aws.py:192-195 | a box that ends within the image in fractions also ends within it in pixels: x + w ≤ width, y + h ≤ height |
| Aws.Gather | src/cloud/aws.py:184-187 | the parser loop over items; stated by `Aws.GatherOk`, `Aws.GatherFirstErr` and `Aws.GatherAppend` |
| Aws.GatherOk | src/cloud/aws.py:184-205 | the parser loop succeeds exactly when every item does, and then yields the kept entries |
| Aws.GatherFirstErr | src/cloud/aws.py:185-187 | the error raised is that of the first failing item |
| Aws.GatherAppend | src/cloud/aws.py:293-309 | parsing two runs of items concatenates their entries |
| Aws.Reversed | src/cloud/aws.py:188 | `reversed(...)`: element k of the result is element n − 1 − k of the input |
| Aws.ParseLabel | src/cloud/aws.py:186-204 | one label entry: the `ValueError` of a missing mandatory key, the `KeyError` of a parent without a name, or its detection; stated by `Aws.DetectionLabel` |
| Aws.Detections | src/cloud/aws.py:149-205 | `parse_rek_detect`; stated by `Aws.DetectionsShape`, `Aws.DetectionsFirstError` and `Aws.DetectionLabel` |
| Aws.DetectionsShape | src/cloud/aws.py:182-205 | parsing succeeds exactly when every label has the mandatory keys and named parents; one detection per label, in order, with its confidence unchanged |
| Aws.DetectionsFirstError | src/cloud/aws.py:182-187 | a label missing a mandatory key after well-formed labels raises `ValueError` |
| Aws.DetectionLabel | src/cloud/aws.py:188-199 | the label is the parents in reverse order, then the item's own name, joined by '/'; instances are the scaled boxes |
| Aws.LabelWithoutParents | src/cloud/aws.py:188-189 | a label without parents is its own name |
| Aws.LabelExample | src/cloud/aws.py:163-176 | `Cottage` under `House`, `Housing`, `Building` is labelled `Building/Housing/House/Cottage` |
| Aws.BoxesAppend | src/cloud/aws.py:190-199 | instances keep input order |
| Aws.BoxesSingle | src/cloud/aws.py:197-198 | an instance contributes its box exactly when it has one |
| Aws.LandmarkKeys | src/cloud/aws.py:248-251 | the landmark map has one key per landmark type present |
| Aws.LandmarkLastWins | src/cloud/aws.py:248-251 | each type maps to the position of its last landmark |
| Aws.LandmarkMap | src/cloud/aws.py:248-251 | the landmark dictionary; stated by `Aws.LandmarkKeys` and `Aws.LandmarkLastWins` |
| Aws.ParseFace | src/cloud/aws.py:240-256 | one face entry: the `ValueError` of a missing mandatory key, or its face |
| Aws.Faces | src/cloud/aws.py:208-257 | `parse_rek_faces`; stated by `Aws.FacesShape` |
| Aws.FacesShape | src/cloud/aws.py:236-257 | parsing fails exactly when a face lacks a mandatory key, and then with `ValueError`; otherwise one face per entry, in order, with confidence, scaled box and landmark map |
| Aws.ParseWord | src/cloud/aws.py:295-308 | one text entry: the `ValueError` of a missing mandatory key, the `KeyError` of a missing `BoundingBox` or `Type`, nothing for a LINE, or its word; stated by `Aws.WordOnly` |
| Aws.Words | src/cloud/aws.py:260-309 | `parse_rek_text`; stated by `Aws.WordsInOrder` and `Aws.LinesStillChecked` |
| Aws.WordOnly | src/cloud/aws.py:303-308 | an entry gives output exactly when its type is WORD, carrying its text |
| Aws.WordsInOrder | src/cloud/aws.py:293-309 | the output keeps entry order |
| Aws.LinesStillChecked | src/cloud/aws.py:291-296 | a LINE entry missing a mandatory key still fails the whole parse |
| Aws.MissingTypeIsKeyError | src/cloud/aws.py:303 | a missing `Type` is a `KeyError` |
| Aws.ParseDetect | src/cloud/aws.py:149-205 | the loop computes the detection parse |
| Aws.ParseFaces | src/cloud/aws.py:208-257 | the loop computes the face parse |
| Aws.ParseText | src/cloud/aws.py:260-309 | the loop computes the text parse |
| Aws.Assign | src/cloud/aws.py:85-87 | the colour cache after a run of lookups, with the number of random colours drawn; stated by `Aws.AssignKeys`, `Aws.AssignKeeps`, `Aws.AssignCount`, `Aws.AssignCached` and `Aws.AssignAgain` |
| Aws.AssignKeys | src/cloud/aws.py:85-87 | after the lookups every looked-up key is cached and no other key is added |
| Aws.AssignKeeps | src/cloud/aws.py:86-87 | a cached colour never changes |
| Aws.AssignCount | src/cloud/aws.py:86-87 | each random colour drawn goes to a key that was not cached before |
| Aws.AssignCached | src/cloud/aws.py:104-106 | keys already cached draw nothing |
| Aws.AssignAgain | src/cloud/aws.py:85-87 | looking the same keys up again changes nothing |
| Aws.FaceKey | src/cloud/aws.py:103 | the cache key `face{i}` of the i-th face; distinct faces get distinct keys by `Aws.FaceKeyInjective` |
| Aws.FaceKeyInjective | src/cloud/aws.py:103 | different faces have different cache keys |
| Aws.FaceColourStable | src/cloud/aws.py:102-108 | a face keeps its colour from frame to frame |
| Aws.ColourFaceStep | src/cloud/aws.py:102-111 | one pass of the face loop: the cache becomes the assignment over one more face key, and that face is drawn in its colour after the others |
| Aws.AwsVisualiser.constructor | src/cloud/aws.py:24-25 | the cache starts empty |
| Aws.AwsVisualiser.HandleCommand | src/cloud/aws.py:137-140 | 'r' empties the cache; any other key leaves it unchanged |
| Aws.AwsVisualiser.CacheColour | src/cloud/aws.py:86-87 | a key not yet cached gets the next random colour |
| Aws.AwsVisualiser.VisualiseDetections | src/cloud/aws.py:81-96 | on `ValueError` nothing is drawn and the cache is unchanged; a `KeyError` escapes; on success each label is coloured and its instances are drawn in its colour |
| Aws.AwsVisualiser.ColourDetections | src/cloud/aws.py:85-90 | the cache becomes the assignment over the labels, and the drawings are every instance in its label's colour |
| Aws.AwsVisualiser.DrawInstances | src/cloud/aws.py:88-90 | one box per instance, in order, in the label's colour |
| Aws.AwsVisualiser.VisualiseFaces | src/cloud/aws.py:98-114 | on `ValueError` nothing is drawn and the cache is unchanged; otherwise face i is coloured under `face{i}` and drawn in it |
| Aws.AwsVisualiser.ColourFaces | src/cloud/aws.py:102-111 | the cache becomes the assignment over the face keys, and each face is drawn with its box and landmarks in its colour |

## Left out

- Pixel numerics: chessboard detection, `cornerSubPix`, drawing, `undistort`, `calibrate_camera`, `goodFeaturesToTrack`, `calcOpticalFlowPyrLK`, colour conversions. They are floating-point library calls. They appear as uninterpreted constructors or oracle parameters.
- `Stitching` (src/inference/multiview/depth.py:167-265): SIFT matching and homography estimation on floats.
- `process` of `Segmentation` and `AWSInference`, `AWSInference.load`, `image2rekimage` and `Image.asbytes`: network, model and encoding I/O.
- Console output (`print`, `pprint`) and the `debug` flags.
- Stream sources, the model loaders, the viewer application, src/utils.py and the superseded src/images/Image.py and io.py: device, file and UI I/O.
- `time.time()` is read twice in a snapshot tick (src/inference/multiview/depth.py:67, 100). The model uses one `now` for both.
- Frames enter `StereoVision` and `OpticalFlow` as their OpenCV view. `Image.get(OPENCV)` always succeeds (`Images.Image.AsOpenCV`), and wrapping outputs in `Image(..., opencv=True)` is not modelled.
- `copy=True` in `Image.__init__` and in-place aliasing of NumPy arrays: values are immutable in the model.
- Classic.Advance: a `None` from `goodFeaturesToTrack` is shown as an empty point list.
- Classic.GoodPairs: pairs the tracker's outputs with the previous points by position, and stops at the shorter list when their lengths differ. This is a modelling choice: in the source the NumPy mask `status == 1` at src/inference/classic.py:60 raises `IndexError` on a length mismatch, and that error is not modelled.
- Aws.ParseLabel, Aws.ParseFace, Aws.ParseWord: a `KeyError` from a missing sub-key (`Left`, `Top`, `Width` or `Height` of a box; `Type`, `X` or `Y` of a landmark) and a `TypeError` from a value of the wrong JSON type are not modelled. The missing parent `Name`, `BoundingBox` and text `Type` errors are.
- Aws.Trunc, Aws.Pixel, Aws.Scale and Aws.LandmarkMap: compute over exact reals. The source multiplies IEEE doubles (src/cloud/aws.py:192-195, 243-251), so a rounded product can truncate one pixel lower. For example, `int(0.29 * 100)` is 28 in Python but 29 here.
- Aws.AwsVisualiser.VisualiseDetections and Aws.AwsVisualiser.VisualiseFaces: start after the `aspil()` call at src/cloud/aws.py:79 and take the image size as a parameter. The `ValueError` that call raises for frames not created from PIL (`Images.ViewsOfFormats`) is outside their scope.
- The text drawing colour computed from the confidence (src/cloud/aws.py:120-126) and the landmark dots' drawing order: drawing details with no state.
- Streams.IsNumeric and Streams.ParseInt: `str.isnumeric` and `int()` are modelled for ASCII only. Other Unicode digits, surrounding whitespace and `_` separators accepted by `int()` are not modelled.
- Stereo.StereoVision.DetectAll, Stereo.StereoVision.AppendCopiesOf, Aws.AwsVisualiser.DrawInstances and Classic.OpticalFlow.TrackStrokes are the source's inline loops, split out as methods of their own.
