# computer-vision: a Dafny model of its own logic

The repository is a set of Python demonstration scripts. They push image
and video frames through mediapipe's face, hand and pose detectors and draw
annotations with OpenCV. A few small apps are built on the same landmarks:
a finger counter and a virtual painter. The detectors, the raster drawing
and the media I/O are library code. The logic the repository adds itself
is a thin layer of integer and string rules. This project models that
layer and proves properties of it:

- **File classification** (`FileTypes`, `LegacyFileTypes`). `checkFileType`
  decides "image", "video" or "other" by suffix. There are two variants.
  In the older top-level `utils.py`, fourteen of the video suffixes carry a
  trailing comma inside the string literal, so an ordinary name such as
  `clip.mp4` comes out as "other".
- **Landmark shaping** (`Landmarks`, `HandTracking`, `FaceMesh`,
  `PoseEstimation`, `FaceDetection`, `LegacyFaceDetection`,
  `LegacyFaceMesh`). Detector output becomes id-indexed `(id, x, y)`
  lists. `findHands` caps the number of kept hands. Each script has its
  per-frame `...InFrames` loop.
- **Landmark lookup** (`HandTracking`). `highlightLandmark` and
  `connectLandmarks` search every hand and report errors as Python's
  `ValueError`. The last match wins, and A == B always fails.
- **App rules** (`FingerCounter`, `VirtualPainter`):
  - the finger-up rules and the handedness flag of `fingerCounter.py`;
  - the per-frame selection/drawing state machine of `virtualPainter.py`,
    with its menu buttons, colours and eraser width.
- **Corner markers** (`Drawing`). `customDraw` draws a face box plus eight
  axis-aligned segments that point into the box.
- **Output names** (`OutputNames` and each script's `OutputPlan`). The
  `out/<category>/` paths, the `buffer-` prefix and its removal.

Detector output arrives as integer pixel landmarks. The conversion from
the detector's fractions is taken as given. An image is the sequence of
primitives drawn on it, in drawing order: circles, lines, rectangles,
score labels, the library's own overlays, and pasted bitmaps. Python's
`str.endswith`, `split(sep)[-1]`, `replace` and `replace(..., 1)` are
defined in `Strings` with Python's semantics. Stateful parts are classes:

- `FingerCounter.FingerCounter` holds `rightHand`;
- `VirtualPainter.Painter` holds the menu index, the colour, `prevX`/`prevY`
  and the canvas.

The loops that build lists or scan hands are methods with loops:
`findHands`, every `...InFrames` loop, `highlightLandmark`,
`connectLandmarks`, the landmark-shaping loop (`Landmarks.Shape`), the
finger-state loop, both `findFaceMesh` variants, `findFace` of
src/modules/faceDetection.py and `findLandmarksPositions`. Each one is
proved against a predicate or function that states what the result means.
Some loops instead became recursive functions, because they only compute a
value:
- the suffix loops of both `checkFileType` variants are `Strings.EndsWithAny`;
- the draw loop of the top-level `findFace` is the overlay list inside
  `LegacyFaceDetection.FindFace`.

## Model

| member | source | states |
|---|---|---|
| FileTypes.CheckFileType | src/modules/utils.py:5-48 | "image" iff the name ends in one of the 11 image suffixes; "video" iff it ends in none of them but in one of the 16 video suffixes; "other" otherwise |
| FileTypes.SuffixListsDoNotNest | src/modules/utils.py:7-42 | no image suffix is a suffix of a video suffix, and no video suffix is a suffix of an image suffix |
| FileTypes.VideoSuffixNeverShadowed | src/modules/utils.py:7-46 | every name that ends in a video suffix is classified "video", so the image loop that runs first never shadows one |
| FileTypes.DependsOnLastFive | src/modules/utils.py:7-46 | for a name of at least 5 characters, prepending any text leaves its kind unchanged |
| FileTypes.UndottedImageSuffixes | src/modules/utils.py:7-23 | image suffixes have no dot, so any name ending in "jpg" or "raw" (e.g. "notesjpg", "xraw") is "image" |
| FileTypes.CommonVideoNames | src/modules/utils.py:25-46 | names ending ".mp4", ".mpeg", ".webm" or ".qt" are "video", whatever precedes the extension |
| FileTypes.UpperCaseIsOther | src/modules/utils.py:21-48 | matching is case-sensitive: names ending ".JPG" or ".MP4" are "other" |
| Strings.EndsWithAny | src/modules/utils.py:21-23 | the loop of `endswith` checks returns true iff some listed suffix ends the name |
| LegacyFileTypes.CheckFileType | utils.py:1-44 | same order as the newer variant: "image" iff an image suffix matches; "video" iff none does but an entry of the comma-suffixed video list does; "other" otherwise |
| LegacyFileTypes.SameImageRule | utils.py:3-19 | both variants agree exactly on which names are images |
| LegacyFileTypes.VideoOnlyFlvOrSwf | utils.py:21-42 | for a name not ending in a comma, "video" holds iff the name ends ".flv" or ".swf" |
| LegacyFileTypes.OrdinaryVideoIsOther | utils.py:21-44 | any name ending in one of the 14 dotted suffixes that the older list writes with a comma is "other" |
| LegacyFileTypes.CommonVideosAreOther | utils.py:21-44 | "x.mp4", "x.avi" and "x.mov" are "other" for every stem x |
| LegacyFileTypes.CommaNameIsVideo | utils.py:22-42 | a name literally ending ".mp4," is "video" |
| LegacyFileTypes.UpperCaseIsOther | utils.py:17-44 | matching is case-sensitive in the older variant too: names ending ".JPG" or ".MP4" are "other" |
| LegacyFileTypes.UpperCaseNameIsOther | utils.py:17-44 | a name the newer variant calls "other" whose last character is not a comma, 'v' or 'f' is "other" in the older variant too |
| LegacyFileTypes.DependsOnLastSix | utils.py:3-42 | for a name of at least 6 characters, prepending any text leaves its kind unchanged |
| Landmarks.Shape | src/modules/handTracking.py:33-37 | the inner loop yields one tuple per landmark, the k-th being (k, x, y) of landmark k |
| Landmarks.ShapedFromUnique | src/modules/handTracking.py:34-37 | two lists that are both shaped from one subject are equal |
| HandTracking.KeptCount | src/modules/handTracking.py:29-32 | the number of kept hands is min(detected, maxNumHands) for a cap ≥ 0, and every hand for a negative cap (the counter never equals it) |
| HandTracking.FindHands | src/modules/handTracking.py:24-49 | the result is the first KeptCount hands in detector order, the k-th tuple of each with id k; with `draw`, one library overlay per kept hand and nothing else |
| HandTracking.NoDetectionNoHands | src/modules/handTracking.py:27-28 | when nothing is detected, the hands list is empty and the frame is unchanged |
| HandTracking.FoundHandsDeterministic | src/modules/handTracking.py:38-47 | the hands list is fixed by the detector output and the cap, whatever `draw` is |
| HandTracking.FindHandsInFrames | src/modules/handTracking.py:51-58 | one `findHands` result per frame, in frame order |
| HandTracking.HighlightLandmark | src/modules/handTracking.py:60-81 | ValueError("Invalid landmark id") iff no hand holds the id; otherwise a filled circle at the first match in the last hand that holds the id (`break` leaves only the inner loop) |
| HandTracking.HighlightSourceUnique | src/modules/handTracking.py:70-74 | the highlighted entry is unique |
| HandTracking.ConnectLandmarks | src/modules/handTracking.py:83-108 | the A error when A is absent; otherwise the B error when B is absent or A == B (the `elif`); otherwise a line from the last occurrence of A to the last occurrence of B |
| HandTracking.OutputPlan | src/modules/handTracking.py:117-177 | "other" stops the script, "image" gives an image write and "video" a video write; an image goes to out/hands/<base>; a video is buffered at out/hands/buffer-<base> and muxed into out/hands/<base>, and removing the first "buffer-" from the buffer name gives the output name back |
| Strings.LastComponent | src/modules/handTracking.py:158-159 | the last component of `split(sep)` holds no `sep`, is a suffix of the string, and follows a `sep` unless it is the whole string |
| OutputNames.DirectPlanNames | src/modules/faceDetection.py:121-141 | direct layout: the plan is unsupported, an image write or a video write exactly when the kind is "other", "image" or "video"; an image goes to out/<category>/<base>; a video's buffer is out/<category>/buffer-<base> and removing the first "buffer-" gives the muxed name |
| OutputNames.DirectPlanReported | src/modules/handTracking.py:177-179 | the reported name is the output directory plus the base name with every "buffer-" removed, so it differs from the written name only when the base name itself holds "buffer-" |
| OutputNames.BufferPlanNames | src/modules/poseEstimation.py:116-133 | buffer layout: the plan is unsupported, an image write or a video write exactly when the kind is "other", "image" or "video"; an image is written to out/<category>/buffer-<base> itself; a video is muxed into out/<category>/<base>; the reported name is always the buffer name |
| Strings.ReplaceFirstAtFirstOccurrence | src/modules/poseEstimation.py:126 | `replace(pat, rep, 1)` replaces exactly the leftmost occurrence of `pat` |
| Strings.ReplaceAllAtFirstOccurrence | src/modules/handTracking.py:177 | `replace(pat, rep)` keeps the text before the leftmost occurrence, puts `rep` in its place, and goes on replacing in the rest after it: left to right, without overlaps |
| FingerCounter.ComputeFingerStates | src/projects/fingerCounter.py:44-55 | returns exactly the five-entry finger-state list: the thumb rule first, then one entry per remaining fingertip |
| FingerCounter.FingerStatesAreBits | src/projects/fingerCounter.py:44-55 | there are exactly 5 entries, each 0 or 1 |
| FingerCounter.FingerStatesUnique | src/projects/fingerCounter.py:44-55 | the finger states are a function of the hand's landmarks alone; handedness plays no part |
| FingerCounter.FingerUpIff | src/projects/fingerCounter.py:45-55 | finger j (1 to 4) is 1 iff the y of tip 4j+4 is less than the y of landmark 4j+2; the thumb is 0 iff the x of landmark 4 is less than the x of landmark 3 |
| FingerCounter.FingerStatesFromSubject | src/projects/fingerCounter.py:23-55 | the same rules stated on the detector's pixel landmarks, since ids are positions |
| FingerCounter.FingerCounter.Step | src/projects/fingerCounter.py:30-61 | no hand: states [] and `rightHand` kept; otherwise only the first hand decides `rightHand` (x of 5 > x of 17) and the states; the finger image is always pasted last |
| FingerCounter.FingerCounter.constructor | src/projects/fingerCounter.py:24 | `rightHand` starts false |
| VirtualPainter.ToolAt | src/projects/virtualPainter.py:54-66 | a tool is chosen iff y < 140 and x lies strictly inside one of the four button intervals, and then it is the tool of that interval |
| VirtualPainter.ToolIntervalsDisjoint | src/projects/virtualPainter.py:55-66 | the four button intervals are disjoint, so at most one tool applies |
| VirtualPainter.BoundariesSelectNothing | src/projects/virtualPainter.py:55-66 | interval end points such as x = 250, and the gaps between buttons, select nothing |
| VirtualPainter.SelectionNeedsClick | src/projects/virtualPainter.py:54-66 | with y ≥ 140 or x in no interval, no tool is chosen |
| VirtualPainter.EveryToolSelectable | src/projects/virtualPainter.py:55-66 | the middle of each button selects that button's tool |
| VirtualPainter.ModeOf | src/projects/virtualPainter.py:52-70 | selection iff index and middle finger are both 1; drawing iff index is 1 and middle is 0; nothing otherwise, with selection checked first |
| VirtualPainter.StrokeWidth | src/projects/virtualPainter.py:74-79 | the eraser (black) draws penThickness + 20, every other colour penThickness |
| VirtualPainter.OnlyEraserIsWide | src/projects/virtualPainter.py:11-79 | of the four tool colours only the last is drawn 35 wide; the others are 15 wide |
| VirtualPainter.Painter.constructor | src/projects/virtualPainter.py:12-30 | starts with menus[0], colour (255,216,0), prev = (-1,-1) and an empty canvas |
| VirtualPainter.Painter.Step | src/projects/virtualPainter.py:39-82 | keeps menu and colour paired; selection sets the tool only on a click and draws the filled rectangle; drawing adds the dot and the same stroke from (prevX, prevY) to both frame and canvas; prevX/prevY never change; the menu is always pasted last |
| Drawing.CornerMarkers | faceMesh.py:40-61 | `customDraw` (identical in both face scripts): the box outline, then for each corner in order two segments that start at the corner, where xEnd = x + w and yEnd = y + h: one horizontal, one vertical, each `cornerMarkerLength` long and pointing inward |
| Drawing.CornerMarkersPointInward | src/modules/faceDetection.py:64-77 | all eight segments are axis-aligned and of the marker length; when the marker fits the box (0 ≤ l ≤ w, h), both ends of every segment lie inside the box |
| Drawing.CustomDraw | src/modules/faceDetection.py:58-79 | the frame keeps what it had and gains the box rectangle, then eight axis-aligned marker lines of the given colour, thickness and length |
| FaceDetection.Label | src/modules/faceDetection.py:38-46 | the score label is placed 20 pixels above the box's top-left corner and shows the percentage |
| FaceDetection.Annotations | src/modules/faceDetection.py:36-46 | drawing keeps the frame's own primitives and adds ten primitives per detection |
| FaceDetection.AnnotationsBlock | src/modules/faceDetection.py:36-46 | detection i contributes exactly its corner markers and then its label, at position |image| + 10i |
| FaceDetection.FindFace | src/modules/faceDetection.py:19-47 | one (id, box, score) per detection, with ids 0..n-1 in detector order and no cap; with `draw`, the annotations of every detection in order |
| FaceDetection.NoDetectionNoFaces | src/modules/faceDetection.py:22-23 | with no detections the list is empty and the frame is unchanged |
| FaceDetection.FoundFacesIgnoresDraw | src/modules/faceDetection.py:34-46 | the face list does not depend on `draw`, its ids are 0..n-1, and without `draw` the frame is untouched |
| FaceDetection.FindFaceInFrames | src/modules/faceDetection.py:49-56 | one `findFace` result per frame, in frame order |
| FaceDetection.OutputPlan | src/modules/faceDetection.py:121-141 | the direct layout under out/face/: unsupported, image write or video write exactly for "other", "image" or "video"; image to out/face/<base>; video buffered at out/face/buffer-<base> and muxed into out/face/<base> |
| FaceMesh.FindFaceMesh | src/modules/faceMesh.py:20-37 | every detected face in detector order with no cap, the k-th tuple of each with id k; with `draw`, one contour overlay per face |
| FaceMesh.NoDetectionNoFaces | src/modules/faceMesh.py:26-27 | with no faces the list is empty and the frame is unchanged |
| FaceMesh.FoundMeshesIgnoresDraw | src/modules/faceMesh.py:28-36 | the faces list is fixed by the detector output, whatever `draw` is |
| FaceMesh.FindFaceMeshInFrames | src/modules/faceMesh.py:39-46 | one `findFaceMesh` result per frame, in frame order |
| FaceMesh.OutputPlan | src/modules/faceMesh.py:88-108 | the direct layout under out/faceMesh/: unsupported, image write or video write exactly for "other", "image" or "video"; an image goes to out/faceMesh/<base>; a video is buffered at out/faceMesh/buffer-<base> and muxed into out/faceMesh/<base> |
| LegacyFaceMesh.FindFaceMesh | faceMesh.py:20-29 | the call returns None; with `draw` the frame gains one overlay per face |
| LegacyFaceMesh.FindFaceMeshInFrames | faceMesh.py:31-38 | one entry per frame, and every entry is None |
| LegacyFaceMesh.OutputPlan | faceMesh.py:103-123 | the direct layout under out/faceMesh/, with the kind-to-plan correspondence of the other scripts, but classified by the older utils.py |
| LegacyFaceMesh.DefaultInputUnsupported | faceMesh.py:65 | the script's own input "assets/IpMan4Faces0.mp4" is "other" under the older classifier, so its `main` would write nothing |
| PoseEstimation.FindPose | src/modules/poseEstimation.py:39-46 | [] and an unchanged frame without a pose; otherwise the detector's landmark list unchanged, with the library overlay when `draw` holds |
| PoseEstimation.FindPoseIgnoresDraw | src/modules/poseEstimation.py:42-45 | the landmarks do not depend on `draw`; without `draw` the frame is untouched |
| PoseEstimation.FindPoseInFrames | src/modules/poseEstimation.py:48-55 | one `findPose` result per frame, in frame order |
| Landmarks.FindLandmarksPositions | src/modules/poseEstimation.py:57-70 | None or [] gives []; otherwise one (id, x, y) per landmark with id equal to its position; `draw` only adds one circle per position (faceDetection.py:36-49 is the same code) |
| Landmarks.PositionCircles | faceDetection.py:47-48 | exactly one filled radius-5 circle of colour (255,0,0) per position, in order |
| PoseEstimation.OutputPlan | src/modules/poseEstimation.py:116-131 | buffer layout under out/pose/: unsupported, image write or video write exactly for "other", "image" or "video"; an image goes to the buffer- name itself; a video is muxed into out/pose/<base>; the reported name is the buffer name |
| LegacyFaceDetection.FindFace | faceDetection.py:17-25 | the detections come back unchanged ([] when there are none); with `draw` the frame gains one overlay per detection |
| LegacyFaceDetection.FindFaceIgnoresDraw | faceDetection.py:20-24 | the detections do not depend on `draw`; without `draw` the frame is untouched |
| LegacyFaceDetection.FindFaceInFrames | faceDetection.py:27-34 | one `findFace` result per frame, in frame order |
| LegacyFaceDetection.OutputPlan | faceDetection.py:95-110 | buffer layout under out/face/, with the kind-to-plan correspondence of the other scripts, but classified by the older utils.py; images are written to out/face/buffer-<base> itself |

## Left out

- Detector calls: `hands.process`, `face.process` and `pose.process` are inputs. `draw_landmarks` and `draw_detection` become the `DetectorOverlay` primitive. What the library draws is not modelled.
- Fraction → pixel conversion: `int(landmark.x * imageW)`, the box scaling and `int(score[0] * 100)` are floating point. Their integer results are supplied as inputs (`Landmark`, `Detection.box`, `Detection.percent`).
- Raster drawing: frames are recorded as sequences of primitives. Clipping, pixel contents and the bitmaps of the menu and finger images are not modelled. That `cv2` drawing changes the caller's frame in place, so that aliases see the drawing, is modelled by returning the new frame.
- Frame and media I/O: `imread`, `VideoCapture`, `VideoWriter`, `imwrite`, `imshow`, `waitKey`, the ffmpeg mux, `os.remove`, `print` and `colored`. This also covers the camera `while True` loops and their 'q' exits. The `write == False` display branch of each `main` is left out too.
- `readVideo` (src/modules/utils.py:51-83) is a capture loop over cv2 and ffmpeg, so it is pure I/O.
- `os.path.normpath` is not modelled, and `os.sep` is fixed to '/'. `LegacyFaceMesh.DefaultInputUnsupported` takes the normalised form of the default input as its literal.
- `main` pipelines other than the output names: the `highlightLandmark(frame, hands, 4)` and `(…, 8)` calls (src/modules/handTracking.py:141-142), the pose loop over `findLandmarksPositions` (src/modules/poseEstimation.py:99-102).
- The finger-state source of the painter: `getFingersStates` (src/projects/virtualPainter.py:49) is defined in no file of the repository, so the painter's `Step` takes the finger states as a parameter.
- The menus' sort order: menu bitmaps are numbered by their position in the sorted directory listing (src/projects/virtualPainter.py:9-10). The listing itself is not modelled. The finger counter shows `fingerImages[0]`, the first entry of an unsorted `os.listdir` (src/projects/fingerCounter.py:18-21); `FINGER_IMAGE` stands for that entry, whichever file it is.
- `cv2.flip` (src/projects/virtualPainter.py:34) is not modelled: the detector input is taken as already flipped.
- VirtualPainter.Painter.Step: requires that a detected first hand has more than 12 landmarks and that the finger states have at least 3 entries. The source would raise IndexError for a shorter hand or state list. A mediapipe hand always has 21 landmarks, and the state list comes from the undefined helper.
- FingerCounter.FingerCounter.Step: requires that a detected first hand has at least 21 landmarks. The source would raise IndexError otherwise, and mediapipe always reports 21.
- `HandDetector` is modelled with its default `maxNumHands = 2` in the two apps, which build it with defaults (src/modules/handTracking.py:15). Its confidence settings only configure the detector.
- FileTypes.CheckFileType: the three result strings are the three values of `FileKind` (with `FileKind.Name` giving "image", "video" and "other"), so "always one of the three strings" holds by construction rather than as a stated lemma.
- AITrainer.py, gestureVolumeControl.py, virtualPainer.py, the top-level handTracking.py and poseEstimation.py, and the scripts/ folder are not part of this model. None of them has logic of its own beyond library calls and I/O loops, and AITrainer.py calls helpers that no file defines.
- PoseEstimation.OutputPlan: its video plan is never reached in the source as written. src/modules/poseEstimation.py:93 unpacks the result of `readVideo(filename, True, True)` as `((frames, audio), (frameWidth, frameHeight))`, but that call returns a size triple (src/modules/utils.py:83). Python raises ValueError for every video input before line 116, so only the image and "other" plans happen. The model states what lines 116-131 would compute.
- LegacyFaceDetection.OutputPlan and LegacyFaceMesh.OutputPlan: no plan is reached in the source as written. The top-level faceDetection.py:4 and faceMesh.py:4 import `readVideo` from the top-level utils.py, which defines only `checkFileType` (utils.py:1-44). Both scripts stop with ImportError before `main` runs. The model states what their `main` would compute. `LegacyFaceMesh.DefaultInputUnsupported` likewise states how the older classifier treats the default input, not something the script reaches.
- The unused `customDraw` of the top-level faceMesh.py is modelled by `Drawing.CornerMarkers`, whose colour is a parameter. That script's annotation colour is `LegacyFaceMesh.ANNOTATION_COLOR`.
