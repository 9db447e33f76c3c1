# Object detection on video and webcam, modelled in Dafny

`object_detection.py` runs an object detector frame by frame.

- `ObjectDetector.detect_objects` gets the raw boxes from the model. It turns each box into a record with an integer box `(x, y, w, h)`, the class name, a display label and the confidence. The display label is the Portuguese entry of the table, or the class name when the table has none.
- `draw_detections` draws each record on the frame: the box, a filled label background and the label text.
- `process_video_file` reads a video. It processes every `skip_frames`-th frame, resizing it by `resize_factor` unless that is 1.0. It stamps every tenth processed frame with the processing rate. It stops at the end of the video or when `q` is pressed.
- `process_webcam` does the same for the webcam, with no skipping, no resizing and no rate.
- `main` reads the settings of the video mode from three answers.
  - The resize factor is clamped into [0.1, 1.0] and the frame skip into [1, 10].
  - The GPU wish comes from a yes/no answer.
  - An empty answer stands for the recommended value.
  - An answer that does not parse gives the defaults of `process_video_file`.

The modules follow that structure:

- **`Labels`**: the English-to-Portuguese table and `Translate`, which is `translations.get(label.lower(), label)`.
- **`Text`**: lower-casing, Python whitespace, stripping and decimal digits.
- **`Numeric`**: `int()` on a float (truncation toward zero), and counting the multiples of `k`.
- **`Detector`**: the model's output as data (`RawResult`, `RawBox`).
  - `Normalize` is what `detect_objects` returns.
  - `DetectObjects` is its two nested loops, proved equal to `Normalize`.
- **`Overlay`**: the drawing calls.
  - A `Canvas` class holds the frame and the list of calls made on it. `cv2.rectangle` and `cv2.putText` append to that list.
  - `DrawDetections` is the loop over the detections, proved equal to the pure `Layout`.
- **`Frames`**: frames (size and scene) and the capture as the sequence of frames read before the first failed read.
- **`Capture`**:
  - `Env`: what the loops see of the world, namely the detector, the font metrics, the capture and the keyboard.
  - `Session`: how a loop ended, the frames it showed and whether it reached `cap.release()`.
- **`VideoFile`**:
  - `Video` describes a whole run of `process_video_file` by the positions at which it stops.
  - The method `ProcessVideoFile` runs the loop itself and is proved equal to `Video`.
- **`Webcam`**: the same pair for `process_webcam` (`Webcam` and `ProcessWebcam`). It also proves that the webcam loop is the video loop with skip 1 and factor 1.0, less the rate stamp.
- **`Config`**: `int()` and `float()` on answers, the clamps, and `ChooseSettings`.

Behaviours of the code worth knowing:

- When the capture does not open, the function returns without `cap.release()`.
- A class id missing from the result's `names` raises `KeyError`. That ends the loop before `cap.release()` (`Outcome.DetectFailed`, `released == false`).
- The width and height of a box truncate `x2 - x1` and `y2 - y1`. There is no promise that they are positive (`WidthSign`), and the right edge need not be `int(x2)` (`RightEdgeNotTruncatedCorner`).
- The label background is not clamped to the frame (`LabelNotClamped`).
- An answer that fails to parse gives the defaults 0.5 and 2 instead of being clamped. A blank answer of spaces fails to parse (`BlankAnswerIsInvalid`).
- The GPU answer is lower-cased but not stripped (`GpuAnswerUnstripped`).
- The resize size comes from the size the capture reports before the loop, not from the frames (`ProcessingWidth`).

## Model

| member | source | states |
|---|---|---|
| Labels.Translations | object_detection.py:25-96 | the table: the Portuguese entry of each of the 70 lower-case English keys, `None` for any other name (properties in TableValuesFixed, IdentityEntriesMapToThemselves) |
| Labels.Translate | object_detection.py:125 | `translations.get(label.lower(), label)`: the entry of the lower-cased name, or the name unchanged (properties in TranslateKnown, TranslateUnknown, TranslateIdempotent) |
| Text.Lower | object_detection.py:125 | `str.lower()` on ASCII and Latin-1 (properties in LowerIsLowerCase, LowerIdempotent) |
| Text.Strip | object_detection.py:359-360 | the argument of `int()`/`float()` without the ASCII whitespace they skip: the part of the string after its leading whitespace, with only whitespace after it, and neither starting nor ending with whitespace (properties in StripUnique, StripAround) |
| Text.StripUnique | object_detection.py:359-360 | the stripped string is the only infix with nothing but whitespace around it and no whitespace at its ends |
| Text.StripAround | object_detection.py:359-360 | whitespace added on either side of a string does not change what is left after stripping |
| Detector.ToDetection | object_detection.py:117-131 | the record of one box: truncated corner and size, translated label, class name and confidence (properties in CornerTruncated, WidthSign, DisplayNameStable) |
| Detector.Normalize | object_detection.py:112-134 | the list `detect_objects` returns, or the first class id whose lookup raises `KeyError` (properties in NormalizeCount, NormalizeOrder, NormalizeOkIff) |
| Overlay.BoxMarks | object_detection.py:150-175 | the three drawing calls for one record (properties in LabelPlacement, LabelNotClamped) |
| Overlay.Layout | object_detection.py:144-176 | the drawing calls for a list of records, in order (properties in LayoutAt, LayoutWritesOnlyLabels) |
| Capture.Quits | object_detection.py:275 | `waitKey(1) & 0xFF == ord('q')` on the key code (properties in QuitsLowByte) |
| Frames.Resize | object_detection.py:248 | the resized frame has the requested size and the original scene |
| Config.ParseInt | object_detection.py:360 | `int()` on a string: optional sign and at most 4300 decimal digits inside ASCII whitespace, `None` where it raises (properties in ParseIntRoundTrip, ParseIntIgnoresSpace, SeparatorNotSkipped, TooManyDigitsIsInvalid) |
| Config.ParseFloat | object_detection.py:359 | `float()` on a string in plain decimal notation, `None` where it raises (properties in ParseFloatOfInteger, ParseFloatOfDecimal) |
| Config.ResizeAnswer | object_detection.py:359 | `float(answer or 0.5)` (properties in EmptyAnswersGiveRecommended, BlankAnswerIsInvalid) |
| Config.SkipAnswer | object_detection.py:360 | `int(answer or 2)`, failing on more than 4300 digits (properties in EmptyAnswersGiveRecommended, BlankAnswerIsInvalid, TooManyDigitsIsInvalid) |
| Config.WantsGpu | object_detection.py:361 | membership of the lower-cased answer in `['s', 'sim', 'y', 'yes', '']` (properties in GpuAnswerIgnoresCase, GpuAnswerUnstripped) |
| Labels.TranslateKnown | object_detection.py:125 | a name whose lower-cased form is a key is replaced by that key's Portuguese entry, whatever its letter case |
| Labels.TranslateUnknown | object_detection.py:125 | a name whose lower-cased form is not a key is returned unchanged, in its original case |
| Labels.TranslateIdempotent | object_detection.py:125 | translating a translated label changes nothing |
| Labels.TableValuesFixed | object_detection.py:25-96 | every value of the table is lower case, and is a key only when it is one of the five identity entries, which map to themselves |
| Labels.IdentityEntriesMapToThemselves | object_detection.py:25-96 | the five keys "banana", "zebra", "pizza", "laptop" and "mouse" map to themselves |
| Text.LowerIsLowerCase | object_detection.py:125 | `lower()` leaves no upper-case letter |
| Text.LowerIdempotent | object_detection.py:125 | lower-casing twice is lower-casing once |
| Numeric.Trunc | object_detection.py:117 | `int()` on a float lies within one unit of it, on the side of zero |
| Numeric.TruncNegate | object_detection.py:117 | `int()` truncates toward zero: `int(-x) == -int(x)` |
| Numeric.CountMultiplesQuotient | object_detection.py:243 | of the frame numbers 1..n exactly `n / k` pass `frame_count % k == 0` |
| Detector.DetectObjects | object_detection.py:112-132 | the two loops return exactly `Normalize` of the model's output at the 0.5 threshold, including the `KeyError` of the first unnamed class id |
| Detector.ClassId | object_detection.py:120 | `int(box.cls[0].item())`, truncated toward zero (properties in NormalizeOkIff) |
| Detector.NormalizeCount | object_detection.py:112-132 | one record per raw box over all results |
| Detector.NormalizeOrder | object_detection.py:112-132 | the record of box `j` of result `i` is at position (boxes of earlier results) + `j`, with that box's corner, size, class name, label and confidence |
| Detector.NormalizeOkIff | object_detection.py:120-121 | the call succeeds if and only if every box's class id is in its result's `names` |
| Detector.ConfidencePassesThrough | object_detection.py:106-122 | no filtering happens after the model; a record's confidence is its box's, so boxes at or above the threshold give records at or above it |
| Detector.CornerTruncated | object_detection.py:117 | `x` and `y` are the corner truncated toward zero |
| Detector.WidthSign | object_detection.py:117 | `w > 0` if and only if the box is at least one unit wide (likewise `h`); a non-negative extent gives a non-negative size |
| Detector.RightEdgeNotTruncatedCorner | object_detection.py:117 | for corners 0.5 and 1.25, `x + w` is 0 while `int(x2)` is 1 |
| Detector.DisplayNameStable | object_detection.py:125-129 | `original_label` is the class name and `label` is already a fixed point of the translation |
| Overlay.Canvas.DrawRectangle | object_detection.py:154 | the rectangle call is appended to the frame's drawing calls |
| Overlay.Canvas.PutText | object_detection.py:175 | the text call is appended to the frame's drawing calls |
| Overlay.DrawDetections | object_detection.py:144-176 | drawing in place appends exactly `Layout(detections)` to the frame's calls |
| Overlay.LayoutAt | object_detection.py:144-176 | three calls per detection, those of detection `i` at positions 3i..3i+2 |
| Overlay.LabelPlacement | object_detection.py:150-175 | the outline runs from the record's `(x, y)` to `(x + w, y + h)`; the filled background runs from `(x, y - th - 10)` to `(x + tw, y)`, on the box's top edge; the text is anchored at `(x, y - 5)`, inside the background; box and background blue, text white |
| Overlay.LabelNotClamped | object_detection.py:168-172 | a box nearer the top than the label's height plus ten puts the background above the frame |
| Overlay.LayoutWritesOnlyLabels | object_detection.py:174-175 | every text `draw_detections` writes is a detection label, never the rate |
| Capture.Detect | object_detection.py:106-134 | `detect_objects` of a detector over a given model: the model at the 0.5 threshold, normalized (properties in Detector.DetectObjects, ConfidencePassesThrough) |
| Capture.QuitsLowByte | object_detection.py:275 | a key quits if and only if its low byte is `q`'s; -1 and `Q` do not quit |
| VideoFile.ProcessVideoFile | object_detection.py:180-280 | the loop's outcome, shown frames, release and both counters are exactly `Video` of its inputs |
| VideoFile.Video | object_detection.py:205-207 | the capture is released exactly on the end of the video or on `q`; a capture that does not open shows nothing and reads nothing; the processed frames are the frames shown |
| VideoFile.ShownFrames | object_detection.py:240-254 | the `j`-th frame shown is frame number `(j + 1) * skip`, prepared, with its detections drawn and the rate after every tenth |
| VideoFile.ShownFramesResized | object_detection.py:247-248 | with a factor other than 1.0 every frame shown has the one precomputed size and the read frame's scene; with 1.0 it is the frame read |
| VideoFile.ProcessedFramesCounted | object_detection.py:240-244 | processed frames (plus a failed one) are the multiples of the skip among the frames read; a run that is not at the end stops on a multiple |
| VideoFile.VideoEndsAtEnd | object_detection.py:232-237 | the run reaches the end of the video if and only if no processed frame stops it, and then shows every processable frame |
| VideoFile.VideoEndsOnQuit | object_detection.py:275-276 | a quit comes from the poll after the last frame shown, and no earlier poll quit |
| VideoFile.VideoEndsOnFailure | object_detection.py:251 | a failed detection is the frame after the last one shown, with the class id reported |
| VideoFile.StampedEveryTenth | object_detection.py:257-268 | a shown frame carries the rate if and only if it is the 10th, 20th, ... processed |
| VideoFile.StampedCountIsTenth | object_detection.py:257-268 | of `n` frames shown, `n / 10` carry the rate |
| VideoFile.ProcessingWidth | object_detection.py:211-215 | `int(int(reported width) * resize_factor)`, from the size the capture reports before the loop (properties in ProcessingSizeBounds) |
| VideoFile.ProcessingHeight | object_detection.py:212-216 | `int(int(reported height) * resize_factor)` (properties in ProcessingSizeBounds) |
| VideoFile.Prepared | object_detection.py:247-248 | the frame handed to the detector: resized to the precomputed size unless the factor is 1.0 (properties in ShownFramesResized) |
| VideoFile.FpsMarks | object_detection.py:257-268 | the rate stamp `FpsMark`, text at `(10, 30)`, scale 1, green, thickness 2, when the processed count is a multiple of ten, nothing otherwise (properties in StampedEveryTenth, StampedCountIsTenth) |
| VideoFile.ProcessingSizeBounds | object_detection.py:211-216 | with a factor in [0.1, 1.0] the processing size is between 0 and the reported size |
| Webcam.ProcessWebcam | object_detection.py:282-320 | the loop's outcome, shown frames and release are exactly `Webcam` of its inputs |
| Webcam.Webcam | object_detection.py:292-294 | release exactly on a failed read or `q`; a capture that does not open shows nothing |
| Webcam.WebcamIsUnskippedVideo | object_detection.py:296-316 | the webcam loop ends, releases and shows as the video loop with skip 1 and factor 1.0, except for the rate stamp |
| Config.ParseIntRoundTrip | object_detection.py:360 | `int(str(n)) == n` for every integer of at most 4300 digits, the integers `str` itself accepts |
| Config.ParseIntIgnoresSpace | object_detection.py:360 | for any answer `t`, ASCII whitespace (tab to carriage return, space) on either side of it does not change `int()`'s result, success or failure |
| Config.ParseIntRejectsNonDigit | object_detection.py:360 | `int()` fails on an argument whose first character is neither whitespace, a sign nor a digit |
| Config.TooManyDigitsIsInvalid | object_detection.py:360-370 | `int()` fails on more than 4300 digits, and such a skip answer gives the defaults |
| Config.SeparatorNotSkipped | object_detection.py:360-370 | the separator 0x1C is not whitespace to `int()`: a skip answer starting with it fails, and the defaults are used |
| Config.ParseFloatOfInteger | object_detection.py:359 | `float()` of the decimal notation of `n` is `n`, for every integer, in exact reals |
| Config.ParseFloatOfDecimal | object_detection.py:359 | `float("a.b")` is the decimal value of the digits `a` and `b` |
| Config.BlankAnswerIsInvalid | object_detection.py:359-360 | an answer of only spaces fails both parses, unlike the empty answer |
| Config.EmptyAnswersGiveRecommended | object_detection.py:359-360 | empty answers give factor 0.5 and skip 2 |
| Config.ClampResize | object_detection.py:364 | the factor ends in [0.1, 1.0], unchanged when inside, the nearest bound otherwise |
| Config.ClampSkip | object_detection.py:365 | the skip ends in [1, 10], unchanged when inside, the nearest bound otherwise |
| Config.ClampIdempotent | object_detection.py:364-365 | clamping twice is clamping once |
| Config.ParsedAnswersAreClamped | object_detection.py:364-367 | parsed answers are clamped, and the GPU wish is the answer's |
| Config.ChooseSettings | object_detection.py:358-370 | the settings are always in range; an answer that does not parse gives the defaults 0.5, 2 and GPU on |
| Config.GpuAnswerIgnoresCase | object_detection.py:361 | the GPU answer does not depend on case |
| Config.GpuAnswerUnstripped | object_detection.py:361 | "", "s", "Sim" and "YES" mean yes; "n", " s" and "yes " mean no |

## Left out

- The YOLO model, loaded from `yolo12x.pt`, is a parameter: a function from a frame and the threshold to its results. Filtering by confidence happens inside it.
- The model download in `main` (lines 327-335) is not modelled. It is file-system and network I/O.
- The choice of device and `use_gpu` are not modelled: the device is chosen and printed but never used by the loop. `use_gpu` is only computed, in `Config`.
- Pixels, fonts and the formatting of the numbers in the captions are not modelled. A caption is its label and confidence, and `cv2.getTextSize` is a parameter.
- The clock and the rate value are not modelled: the rate stamp is a mark without its number.
- Opening captures, `cv2.imshow`, `cv2.destroyAllWindows`, the prints and the prompts are not modelled.
  - A capture is its frame sequence and reported size.
  - The keyboard is a function from the poll number to the key code.
  - The answers are strings.
- The mode dispatch of `main` and its file-existence check (lines 345-374) are not modelled. They choose between the two loops on the user's input.
- Unicode case mapping beyond Latin-1, and non-ASCII whitespace and digits, are not modelled.
  - Text.Lower: lower-cases only `A`-`Z` and Latin-1 upper-case letters.
  - Text.Strip: skips only ASCII whitespace; `int()` and `float()` also skip non-ASCII whitespace such as U+0085 and U+00A0, which the model rejects.
- Config.ParseFloat: exponents, `inf`, `nan` and digit underscores are not accepted, and the value is exact rather than a rounded double. The program therefore differs for such resize answers:
  - "nan" and "inf" give the factor 1.0 through the clamp at line 364, and "1e-1" gives 0.1;
  - the model fails to parse all three and gives `DefaultSettings`.
- Config.ParseInt: digit underscores are not accepted.
- Floating-point rounding is not modelled: coordinates, factors and confidences are exact reals.
- A `ValueError` raised inside `process_video_file` would also be caught by `main`'s handler at line 368. That path is not modelled.
- A webcam that never fails a read makes `process_webcam` loop until `q`. The model represents a capture by the finite sequence of frames it delivers, so such a run is covered only up to any finite prefix.
- `cv2.resize` raises an error when asked for a zero size (a factor that small on a tiny frame). That is not modelled.
