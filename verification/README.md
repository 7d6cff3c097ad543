# HCI_PROJECT decision rules, modelled in Dafny

HCI_PROJECT is an expression-recognition demo. A React client streams camera frames to Flask inference servers for emotion, gesture and sign recognition. It also has a sign-language toolkit built on OpenCV and a script that renders the Mermaid diagrams of its design document. Almost all of it is calls into TensorFlow, OpenCV, `fetch` and HTTP. This project models the rules the repository decides for itself:

- **`ConnectionPolicy`** (`frontend/src/App.js`, lines 9-53). The capped exponential reconnect back-off, the latency-to-quality classes, the clamped processing interval and the frame-drop test.
- **`AppClient`** (`frontend/src/App.js`). The client component as a class `App` whose fields are its state and refs. The connection-status record updates of `checkBackendConnection`, `handleModeChange`, and `processFrame` with its guard, attempt counter and result merge.
- **`EmotionHistory`** (`frontend/src/components/EmotionDisplay.js`).
  - The 30-entry history window as a class `History` whose `Update` pushes and shifts in place.
  - `{timestamp, ...emotionData}` entries with JavaScript spread semantics.
  - The chart series projected from the window.
- **`EmotionServer`** (`server/server.py`). The `/process_frame` validation chain and its status codes, the data-URL handling of `preprocess_image`, the arg-max, top-3 and `all_predictions` results, and `/health`.
- **`GestureBackend`** (`backend/app.py`). The `base64,` prefix stripping and failures of `decode_base64_image`, the OPTIONS preflight, the `/process_frame` validation order and the gesture-list normalisation.
- **`ClassifierApi`** (`server/app.py`). The `/predict` checks, the arg-max and the `top_predictions` dictionary.
- **`Scores`**. `np.argmax` (the first maximal index) and `np.argsort(p)[-k:][::-1]`, shared by the handlers.
- **`HandCrop`** (`Sign-Language/Code/final.py`). The area gate on the largest contour, the capture region and the near-square padding of the hand's bounding box.
- **`HistogramGrid`** (`Sign-Language/Code/set_hand_histogram.py`). `build_squares` as imperative code over `array2` images:
  - it walks the 8x12 grid;
  - it outlines each square in the frame in place;
  - it stitches the 20x20 tiles row-major into a 160x240 crop.

  A column-0 tile is a numpy view of the frame, so the crop shows that square's outline.
- **`MermaidDiagrams`** (`scripts/generate_diagram_images.py`). The non-greedy fenced-block extraction, the priority-ordered diagram type, the 1-based output names, and the loop that makes one generation attempt per block in order.
- **`Common`**. JSON values with Python and JavaScript truthiness, substring search, `str.split(sep)[1]`, decimal rendering and dictionary comprehensions.

Model loading, inference, image decoding, OpenCV drawing primitives other than the rectangle, HTTP and `fetch` are foreign calls. They appear as function-typed parameters or as their outcomes, passed in as values.

## Model

| member | source | states |
|---|---|---|
| ConnectionPolicy.ReconnectDelay | frontend/src/App.js:34-36 | the delay is never above 30000 nor above 3000·2^attempts, and is one of the two |
| ConnectionPolicy.ReconnectDelayUncapped | frontend/src/App.js:34-36 | up to three attempts the delay is uncapped: 3000, 6000, 12000, 24000 |
| ConnectionPolicy.ReconnectDelayCapped | frontend/src/App.js:34-36 | from the fourth attempt on the delay is the 30000 cap |
| ConnectionPolicy.ReconnectDelayMonotone | frontend/src/App.js:34-36 | more attempts never give a shorter delay |
| ConnectionPolicy.ReconnectDelayWholeSeconds | frontend/src/App.js:34-36 | every delay is a whole number of seconds, at least 3 |
| ConnectionPolicy.ConnectionQuality | frontend/src/App.js:38-42 | poor iff the time is above 2000, fair iff it is in (1000, 2000], good iff it is at most 1000 |
| ConnectionPolicy.ConnectionQualityMonotone | frontend/src/App.js:38-42 | a slower response never rates better |
| ConnectionPolicy.ProcessingInterval | frontend/src/App.js:44-49 | the interval lies in [500, 2000]; it is 1.5·t when that is in range, else the bound it crossed |
| ConnectionPolicy.ProcessingIntervalMonotone | frontend/src/App.js:44-49 | a longer processing time never gives a shorter interval |
| ConnectionPolicy.ShouldProcessFrame | frontend/src/App.js:51-53 | a frame is processed iff at least 100 ms have passed since the last |
| AppClient.FirstHit | frontend/src/App.js:382 | the first element of a non-empty array, when truthy; nothing otherwise |
| AppClient.MergeResult | frontend/src/App.js:374-397 | processing time always refreshed; a reply without results changes nothing else; each mode changes only its own label fields; combined mode copies only truthy labels and keeps the confidence; gesture mode falls back to null and 0 |
| AppClient.MergeResultIdempotent | frontend/src/App.js:374-397 | merging the same reply twice equals merging it once |
| AppClient.RetryMessageSeconds | frontend/src/App.js:194 | the rounded banner names the exact delay in seconds, 3 after the first failure |
| AppClient.HealthyCheckAsWritten | frontend/src/App.js:156-166 | as written, a healthy check sets connected, clears the error and zeroes the attempts; it writes `connectionQuality` and leaves `quality` alone |
| AppClient.FailedCheckAsWritten | frontend/src/App.js:183-191 | as written, a failed check sets disconnected and the error, adds exactly one attempt and schedules the delay of the old count; it writes `connectionQuality` and leaves `quality` alone |
| AppClient.DisplayedQualityNeverChangesAsWritten | frontend/src/App.js:158-191 | as written, no health check changes the displayed quality; a disconnected client still shows good |
| AppClient.HealthyCheck | frontend/src/App.js:156-166 | corrected healthy check: the same record update, with the displayed quality good |
| AppClient.FailedCheck | frontend/src/App.js:183-191 | corrected failed check: the same record update, with the displayed quality poor; the delay comes from the count before the increment |
| AppClient.CorrectedChecksDifferOnlyInQuality | frontend/src/App.js:159-191 | the corrected updates agree with the source on every field except the two quality fields |
| AppClient.FailuresCountUp | frontend/src/App.js:183-200 | n failures in a row add exactly n attempts, and the last scheduled delay is that of the count before the last failure |
| AppClient.SuccessResetsFailures | frontend/src/App.js:156-200 | after a healthy check the failures that follow count from zero |
| AppClient.FramePayload | frontend/src/App.js:326-331 | the posted body holds only `frame` and `mode`: the mode's name and, when the data URL has a comma, exactly `split(',')[1]` of it (the text after the first comma up to the next); without a comma no `frame` key |
| AppClient.FrameFailure | frontend/src/App.js:345-371 | a reply is used iff it arrived with success; a failure without a message reports "Processing failed" |
| AppClient.App.constructor | frontend/src/App.js:57-89 | the initial state: gesture mode, empty result, no error, connected with good quality, zero counters |
| AppClient.App.CheckBackendConnection | frontend/src/App.js:144-204 | a healthy check returns true and marks the backend ready; a failed one schedules the delay of the old attempt count with its banner; nothing else changes |
| AppClient.App.HandleModeChange | frontend/src/App.js:296-309 | sets the mode, restores the empty result and clears the error; nothing else changes |
| AppClient.App.ProcessFrame | frontend/src/App.js:311-409 | no stream or a frame in flight changes nothing; otherwise the frame is posted in the current mode; success merges the reply and zeroes the attempts; failure keeps the result, sets the error and adds one attempt; `isProcessing` is false afterwards |
| EmotionHistory.IndexFields | frontend/src/components/EmotionDisplay.js:54-57 | spreading an array or string yields exactly its index keys, each with its own element |
| EmotionHistory.MakeEntry | frontend/src/components/EmotionDisplay.js:54-57 | an entry holds the spread data's properties, unchanged, plus `timestamp` |
| EmotionHistory.EntryTimestamp | frontend/src/components/EmotionDisplay.js:54-57 | an entry's timestamp is the clock's unless the data is an object with its own `timestamp` |
| EmotionHistory.NextHistory | frontend/src/components/EmotionDisplay.js:50-62 | falsy data changes nothing; at most 30 entries stay at most 30; the new entry is last; below capacity the old entries are a prefix; at capacity exactly the oldest is dropped |
| EmotionHistory.NextHistoryIsLastN | frontend/src/components/EmotionDisplay.js:54-62 | one update keeps the last 30 of the old window followed by what it pushed |
| EmotionHistory.ReplayKeepsLatest | frontend/src/components/EmotionDisplay.js:50-62 | after any series of updates the window is the last 30 of the old entries followed by everything pushed, in order |
| EmotionHistory.History.constructor | frontend/src/components/EmotionDisplay.js:47 | the history starts empty |
| EmotionHistory.History.Update | frontend/src/components/EmotionDisplay.js:50-62 | the in-place push and shift leave the window equal to `NextHistory` of the old one |
| EmotionHistory.Prediction | frontend/src/components/EmotionDisplay.js:75 | a chart value is the entry's truthy prediction for the emotion, or 0 |
| EmotionHistory.ChartData | frontend/src/components/EmotionDisplay.js:71-80 | one label per entry, in order; seven series in colour-key order, each with one value per entry, its colour, a translucent fill and tension 0.4 |
| EmotionHistory.ChartAfterUpdate | frontend/src/components/EmotionDisplay.js:50-80 | after an update the new entry's label and predictions come last, and the older labels are the previous chart's, shifted when full |
| Common.SplitField1 | server/server.py:56 | the text after the first separator up to the next one or the end, with no separator starting inside it, so the field is unique even for a separator that overlaps itself; no result when the separator is absent |
| Common.DictFromDistinctPairs | server/app.py:53-56 | a comprehension over distinct keys keeps every pair, each key with its own value |
| EmotionServer.ImageSourceOf | server/server.py:55-60 | only a string starting with `data:image` is cut to its first comma field; without a comma that raises; anything else passes untouched |
| EmotionServer.Preprocess | server/server.py:49-85 | exactly one of tensor and error is present; the tensor is the one prepared from the image source; the error is the message of the cut's exception or of the preparation's |
| EmotionServer.Results | server/server.py:121-147 | empty scores raise the arg-max error; results exist iff the selected indices name labels; the emotion is the label at the first arg-max and the confidence its score; top-3 and all-predictions are built from the scores |
| EmotionServer.Top3Properties | server/server.py:130-135 | top-3 holds min(3, n) distinct labels in non-increasing score order; no left-out label scores above any of them; its head is the emotion when the maximum is unique |
| EmotionServer.AllPredictionsExact | server/server.py:142-145 | every label up to the score count is present with the score at its own index, and nothing else |
| EmotionServer.ProcessFrame | server/server.py:87-161 | the model is checked first (500); a non-object body raises (500); a falsy frame gives 400; a preprocessing error gives 500 with its prefix; past the checks, an exception of the model or of reading its scores gives 500 with its message, and otherwise 200 with the results of the predicted scores; 200 only then |
| EmotionServer.HealthCheck | server/server.py:163-173 | always 200 and healthy; `model_loaded` iff a model is loaded; input shape (256, 256, 3) |
| Scores.ArgMax | server/server.py:125 | the index of a largest score, with every earlier score strictly smaller |
| Scores.ArgMaxIsFirstMaximum | server/server.py:125 | any first maximal index is the arg-max |
| Scores.TopK | server/server.py:131 | min(k, n) distinct indices, all in range |
| Scores.TopKRanked | server/server.py:131 | the selected indices come in non-increasing score order, and no index left out scores above a selected one |
| Scores.TopKHead | server/server.py:131 | the first selected index holds a maximal score, and is the arg-max when the maximum is unique |
| Scores.LabelledTopK | server/server.py:131-135 | with distinct labels, the labelled top entries have distinct labels, non-increasing scores and no left-out label above them |
| Scores.LabelledTopKDict | server/app.py:52-56 | the top-k dictionary has min(k, n) keys, each the label of a top index with that index's score, and no left-out label scores higher |
| Scores.ZippedDict | server/server.py:142-145 | a comprehension over zipped distinct labels and scores pairs each label with the score at its own index |
| ClassifierApi.Classify | server/app.py:44-56 | empty scores raise the arg-max error; an out-of-range index raises the index error; otherwise the emotion is the label at the first arg-max and `top_predictions` is built from the top three |
| ClassifierApi.TopPredictions | server/app.py:52-56 | at most three keys, exactly the labels of the three highest scores, each with its own score; no left-out label scores higher; the emotion is a key when the maximum is unique |
| ClassifierApi.Predict | server/app.py:25-65 | no model gives 500 before the file check; no `image` file gives 400; a loading or prediction failure gives 500 with its message; a prediction of the upload's scores gives 200 with it, and 200 only then |
| GestureBackend.StripDataUrl | backend/app.py:39-40 | with `base64,` present, the text after its first occurrence up to the next one or the end; otherwise unchanged; the result never contains the marker |
| GestureBackend.StripDataUrlIdempotent | backend/app.py:39-40 | stripping twice is stripping once |
| GestureBackend.StripDataUrlPayload | backend/app.py:39-40 | a header, the marker and a payload free of it strip to exactly the payload |
| GestureBackend.DecodeInput | backend/app.py:39-40 | the membership test on a non-string: lists and dicts holding the marker raise, other containers pass, scalars raise |
| GestureBackend.DecodeBase64Image | backend/app.py:35-59 | every failure is passed on as an error, an exception of the image decoder included; an image the decoder does not recognise is "Failed to decode image" |
| GestureBackend.NormaliseGestures | backend/app.py:96-101 | a string becomes a one-element list, a list is kept, anything else is empty |
| GestureBackend.NormaliseGesturesIdempotent | backend/app.py:96-101 | normalising a normalised list changes nothing |
| GestureBackend.FrameOf | backend/app.py:79 | `data['frame']` of an object holding it; other values raise |
| GestureBackend.HasFrame | backend/app.py:74 | Python's `in` on each JSON type: key, element, substring, or a raise |
| GestureBackend.ReplyToFrame | backend/app.py:82-121 | a frame that does not decode gives 400 with "Invalid image data: "; 200 exactly when it decodes, with the normalised gestures on success and an empty list and "Gesture detection error: " when the recognizer raised |
| GestureBackend.ProcessFrame | backend/app.py:61-130 | OPTIONS gives 204 with no body; a falsy body, then a body without a frame, then a decoding failure give 400 in that order; a scalar body (where `in` raises), a failed body read and a failed `data['frame']` on a list or string give 500 with "Server error: "; a frame past the checks gets `ReplyToFrame`'s reply, so 200 exactly when the recognizer ran on the decoded frame; success implies no error |
| HandCrop.SelectHand | Sign-Language/Code/final.py:40-42 | a hand exists iff some contour's area exceeds 5000; it is the first contour of largest area |
| HandCrop.CropInFrame | Sign-Language/Code/final.py:38-44 | a box found inside the region's crop lies inside the 300x300 region at (300, 100) |
| HandCrop.SquarePadding | Sign-Language/Code/final.py:45-48 | the shorter side gets half the difference, rounded down, on each end; a square gets none |
| HandCrop.PaddedNearlySquare | Sign-Language/Code/final.py:45-48 | the longer side is unchanged, the sides differ by at most 1, and they are equal iff the difference was even |
| HandCrop.RecogniseHand | Sign-Language/Code/final.py:40-52 | no hand iff the gate fails; otherwise the class is the first arg-max of the model output, or the arg-max error when the output is empty |
| HistogramGrid.SquaresInFrame | Sign-Language/Code/set_hand_histogram.py:15-16 | every square and its outline fit a 640x480 frame: rightmost edge 528, lowest 296 |
| HistogramGrid.OutlineInOwnCell | Sign-Language/Code/set_hand_histogram.py:25 | an outline pixel lies in its own square's 28x28 cell, so outlines never meet |
| HistogramGrid.OutlinedMeansSomeSquare | Sign-Language/Code/set_hand_histogram.py:19-25 | a pixel is outlined after n squares iff one of the first n squares outlines it |
| HistogramGrid.OutlinedStep | Sign-Language/Code/set_hand_histogram.py:19-25 | drawing square 12i + j adds exactly its own outline |
| HistogramGrid.DrawOutline | Sign-Language/Code/set_hand_histogram.py:25 | the one-pixel border of the 21x21 box turns green and every other pixel is unchanged |
| HistogramGrid.CopyTile | Sign-Language/Code/set_hand_histogram.py:22-24 | the 20x20 block is copied to its place and nothing else in the crop changes |
| HistogramGrid.TileCopied | Sign-Language/Code/set_hand_histogram.py:21-25 | a tile read after the outlines drawn so far holds the intended crop pixels |
| HistogramGrid.TileOfPixel | Sign-Language/Code/set_hand_histogram.py:21-30 | a crop pixel lies in tile (i, j) iff its row-major tile index is 12i + j |
| HistogramGrid.OutlineSquare | Sign-Language/Code/set_hand_histogram.py:25 | after square n's outline, exactly the first n + 1 outlines are drawn |
| HistogramGrid.CopySquare | Sign-Language/Code/set_hand_histogram.py:21-24 | after square n's copy, exactly the first n + 1 tiles of the crop are in place |
| HistogramGrid.VisitSquare | Sign-Language/Code/set_hand_histogram.py:21-26 | a column-0 square is outlined before its view is copied, any other square after its copy |
| HistogramGrid.BuildSquares | Sign-Language/Code/set_hand_histogram.py:14-34 | the crop is 160x240 and tiled row-major from the original frame; column-0 tiles show their outline's top row and left column; the frame ends up with all 96 outlines and nothing else changed |
| MermaidDiagrams.FindFirst | scripts/generate_diagram_images.py:14-15 | a search finds the first occurrence at or after its start, or reports that there is none |
| MermaidDiagrams.SpansAreFences | scripts/generate_diagram_images.py:14-15 | every extracted span starts right after an opener and ends right before a closer, with no closer in between |
| MermaidDiagrams.SpansHeadLeftmost | scripts/generate_diagram_images.py:14-15 | the first block starts at the first opener |
| MermaidDiagrams.SpansLeftmost | scripts/generate_diagram_images.py:14-15 | every block starts at the first opener after the end of the previous match, so no match is skipped |
| MermaidDiagrams.SpansInOrder | scripts/generate_diagram_images.py:14-15 | blocks come in document order and do not overlap, fences included |
| MermaidDiagrams.SpansExhaustive | scripts/generate_diagram_images.py:14-15 | after the last block no opener is followed by a closer |
| MermaidDiagrams.ExtractMermaidBlocks | scripts/generate_diagram_images.py:14-15 | one block per span, each the text between its fences |
| MermaidDiagrams.BlocksHoldNoCloser | scripts/generate_diagram_images.py:14-15 | no block contains the closing fence, because the match is non-greedy |
| MermaidDiagrams.ExtractFenced | scripts/generate_diagram_images.py:14-15 | a single fenced body free of the closer is extracted back as exactly itself |
| MermaidDiagrams.KindOf | scripts/generate_diagram_images.py:58-67 | the priority order: class, then sequence, state and flow, else diagram |
| MermaidDiagrams.DiagramType | scripts/generate_diagram_images.py:57-67 | the type is non-empty and contains no underscore |
| MermaidDiagrams.DiagramTypeByKeyword | scripts/generate_diagram_images.py:57-67 | stripping the first line before the keyword test changes no answer |
| MermaidDiagrams.OutputNameInjective | scripts/generate_diagram_images.py:70 | distinct block numbers give distinct names, whatever the types |
| MermaidDiagrams.OutputPathsDistinct | scripts/generate_diagram_images.py:70 | different positions in the block list give different output paths |
| MermaidDiagrams.RequestsIndex | scripts/generate_diagram_images.py:55-77 | the k-th request is the k-th block with the name of its 1-based position |
| MermaidDiagrams.RequestPathsDistinct | scripts/generate_diagram_images.py:55-77 | no two requests write the same file |
| MermaidDiagrams.DiagramImageOutcome | scripts/generate_diagram_images.py:19-41 | true exactly when the reply was 200 and the image was written; false exactly for another status; an exception of the request, or of the write after a 200, is passed on |
| MermaidDiagrams.RequestEach | scripts/generate_diagram_images.py:55-77 | one attempt per block, in order, each returned outcome recorded, until the first attempt that raises: that one ends the loop with its exception and the later blocks get no request |
| MermaidDiagrams.GenerateAll | scripts/generate_diagram_images.py:43-77 | the extracted blocks are requested in order under distinct paths, one attempt each, up to and including the first request that raises, which ends `main` |

## Left out

- I/O and foreign calls:
  - model loading and `model.predict`;
  - `base64.b64decode`, `cv2.imdecode`, resizing and colour conversion;
  - contour finding, bounding boxes, `copyMakeBorder`;
  - `fetch`, `AbortController`, `Promise.race`, `setTimeout`/`setInterval`;
  - the HTTP request to mermaid.ink, file writes and `print`/logging.

  Each is a function-typed parameter or a value passed in. The camera loops of `final.py` and `get_hand_hist`, key handling and pickling are device and file I/O.
- Concurrency of the client: each handler runs to completion on the state it is given. React's stale closures (the `setInterval(processFrame)` callback capturing old `mode` and `isProcessing`) and batched state updates are not modelled.
- The initial connection status: the source's initial status has no `reconnectAttempts`, so its first failure computes with `undefined`. The model starts the count at 0.
- Scores.TopK: numpy does not promise an order among equal scores. The model fixes a stable sort (equal scores: larger index first). Every property stated is independent of that choice except which of the tied indices is selected.
- Scores are reals: the NaN and rounding of floating point are not modelled.
- The messages of exceptions raised by Python itself (`np.argmax` of nothing, list indexing, `in` on a scalar) are CPython's texts as constants. Message texts of the foreign calls are parameters.
- MermaidDiagrams.Lower: `str.lower()` is modelled on ASCII letters only.
- EmotionHistory.IndexFields: a string is spread per character (a Unicode scalar value), whereas JavaScript spreads it per UTF-16 code unit, so a character outside the Basic Multilingual Plane gets one index key here instead of two. The same holds for `EmotionHistory.SpreadFields`.
- MermaidDiagrams.RequestEach: the path of each request is computed by a name function passed in, not inline. `GenerateAll` passes the script's naming rule.
- The `/update_emotion` route of `server/app.py` and the `/health` route of `backend/app.py` are not modelled: they make no decision.
- The FPS counter, `formatProcessingTime` and JSX rendering are not modelled: float formatting and UI.
- HistogramGrid.BuildSquares: requires a frame large enough for the grid, which the caller's resize to 640x480 provides (`SquaresInFrame`). numpy's clipping of slices past the frame edge is not modelled.

## Findings

| source | as written | input that shows it | evidently intended | confidence | as-written member | corrected member |
|---|---|---|---|---|---|---|
| frontend/src/App.js:159-191 | health checks write the quality to `connectionQuality`, but the header at line 432 shows `connectionStatus.quality`, which nothing updates | any failed health check from the initial status: the header reads "Disconnected" and "Quality: good" | the checks set the displayed quality: poor after a failure, good after a success | high; not executed | AppClient.DisplayedQualityNeverChangesAsWritten | AppClient.CorrectedChecksDifferOnlyInQuality |

The class `AppClient.App` uses the corrected updates `HealthyCheck` and `FailedCheck`.
