# BlindAid bookkeeping, modelled in Dafny

BlindAid is an assistant for blind and partially sighted users. A camera
loop hands every frame to one of several modes:

- **guardian** warns "Stop" when an obstacle is close.
- **reading** reads printed text aloud.
- **people** runs a five-second scan and says who it saw.
- **scene** names the objects and faces in view and where they are.

A `ModeController` runs the mode loop. It switches modes on hotkeys, shows
timed overlay messages and passes each mode's speech to a bounded
text-to-speech queue. Next to it sit the older single-purpose services: two
copies of the face recogniser, an object detector and an OCR reader. The
perception itself comes from foreign libraries: YOLO, face_recognition,
PaddleOCR and a DPT depth model.

This project models the bookkeeping around those libraries:

- which frames are processed;
- debouncing and cooldowns;
- what each mode caches between frames;
- the speech queue;
- how results are summarised into words.

It proves what the code promises about them. What the foreign code
returns becomes an input, and so does the time: every `time.time()` and
`time.monotonic()` is a `now: real` parameter.

One Dafny module models each source file:

| module | file | models |
|---|---|---|
| `Common` | common.dfy | helpers: Python's `strip`, `lower`, `sorted` on strings and `" ".join`; the thirds rule for positions; box clamping; `int()` truncation |
| `Config` | config.dfy | the constants of blindaid/core/config.py |
| `Cooldown` | cooldown.dfy | the `now - last > interval` gate shared by all the cooldowns, and the per-key debounce ledger, with the lemmas that space firings apart |
| `Audio` | audio.dfy | `AudioPlayer`: the capacity-10 queue, the worker and `shutdown` |
| `FaceMatch` | face_match.dfy | `_recognize_face` (nearest known face within a threshold) |
| `FpsMeter` | fps.dfy | `_calculate_fps` of the single-mode services |
| `FaceService` | face_service.dfy | the face recognisers of facerecognizer.py and recognizer.py |
| `Detector` | detector.dfy | the YOLO object-detection service |
| `OcrData`, `Reader` | ocr_data.dfy, reader.dfy | the shape of a PaddleOCR result, and the single-mode OCR service |
| `Reading` | reading_mode.dfy | reading mode |
| `Guardian` | guardian_mode.dfy | guardian mode |
| `People` | people_mode.dfy | people mode |
| `Scene` | scene_mode.dfy | scene mode |
| `Depth` | depth.dfy | `DepthAnalyzer.describe_detections` and `_categorize_depth` |
| `Controller` | controller.dfy | `ModeController` |

Objects whose methods update their fields are Dafny classes with `modifies`
frames. Examples are the controller, each mode, the speech player, the FPS
meter and the services. A loop in the source is a method with a `while`
loop, and the method is proved against a specification function. Those
functions carry the lemmas that state what the source promises.

Where the code and its design description disagree, the model follows the code:

- **No audio player in the controller.** The controller builds its
  `AudioPlayer` with a `use_online` argument that the player's constructor
  does not accept. The `TypeError` is caught, so the controller never has
  an audio player, and everything it would say goes to the log instead
  (`Controller.ModeController.constructor`).
- **Reading mode's stability counter counts calls.** It counts calls of
  `process_frame`, not frames on which OCR ran. The cached parse persists
  on frames that skip OCR, so one unchanged parse reaches a count of 2
  within three calls.
- **The OCR reader cannot be imported.** blindaid/modes/ocr/reader.py
  imports `GTTSAudioPlayer`, which blindaid/core/audio.py does not define,
  so the module cannot be imported at all. The model gives the service the
  queue of blindaid/core/audio.py.
- **The OCR service reads a legacy page as no text.** The service runs
  `_extract_text_from_result` as written, so a legacy list page yields
  nothing (see "## Findings"). The list branch the code never reaches is
  modelled on its own, as `Reader.OcrReader.ExtractListPage`.
- **The greeting always names sitting mode.** The controller's greeting
  says "System Ready. Sitting Mode." whichever mode it starts in.

## Model

| member | source | states |
|---|---|---|
| Audio.AudioPlayer.constructor | blindaid/core/audio.py:17-23 | a new player has an empty queue; its worker is alive exactly when the speech engine imports; the same code appears at facerecognizer.py:41-45 |
| Audio.AudioPlayer.Speak | blindaid/core/audio.py:51-56 | `speak` never blocks: the message joins the tail iff fewer than 10 are queued, and is dropped with the queue unchanged otherwise; the queue never exceeds 10; the same code appears at facerecognizer.py:71-76 |
| Audio.AudioPlayer.WorkerStep | blindaid/core/audio.py:34-47 | one `get`: an empty queue changes nothing, the sentinel ends the worker, a text is removed from the head and played only if playback succeeds, and a failed playback does not stop the worker |
| Audio.AudioPlayer.Drain | blindaid/core/audio.py:34-47 | a live worker run to completion does exactly what `Consume` describes; a dead worker (engine import failed) leaves the queue untouched |
| Audio.AudioPlayer.Shutdown | blindaid/core/audio.py:58-61 | the sentinel is put last; the put blocks for good only when the queue is full and the worker is dead, and then nothing changes; with a live worker, it plays what `Consume` plays on the queue plus the sentinel and stops, and the queue is left with what followed the first sentinel; with a dead worker the sentinel just joins the queue |
| Audio.ConsumeIsFifoUntilSentinel | blindaid/core/audio.py:36-38 | the worker plays a subsequence of the texts queued before the first sentinel, in FIFO order, and all of them when every playback succeeds; it stops iff a sentinel was queued, leaving exactly what followed it |
| Audio.ConsumePlaysInOrder | blindaid/core/audio.py:39-47 | what is played is an in-order subsequence of the texts ahead of the sentinel; a failing playback skips only its own text |
| Audio.ConsumeStopsAtSentinel | blindaid/core/audio.py:36-38 | the worker stops iff the queue holds a sentinel, and everything after the first sentinel stays queued |
| Audio.ConsumeStopsOnTrailingSentinel | blindaid/core/audio.py:58-61 | a queue ending in the shutdown sentinel always stops the worker |
| Audio.OfferAllFillsThenDrops | blindaid/core/audio.py:51-56 | a burst of `speak` calls enqueues the texts in order until the queue holds 10 and drops every later one |
| Audio.OfferAllAppend | blindaid/core/audio.py:51-56 | two runs of `speak` calls one after the other act as one run of both |
| Cooldown.FiredIsSpaced | blindaid/modes/object_detection/detector.py:115-118 | a `now - last > interval` gate fires more than `interval` after the initial time and after every earlier firing, whatever the clock does |
| Cooldown.FiredAreAttempts | blindaid/modes/object_detection/detector.py:115-118 | the gate only fires at attempts, in order |
| Cooldown.GatedIsFiredOfWanted | blindaid/modes/scene/scene_mode.py:238-240 | a gate with extra conditions (audio on, a summary present) fires exactly as the plain gate would on the attempts that meet them |
| Cooldown.GatedIsSpaced | blindaid/modes/guardian/guardian_mode.py:121-125 | such a gate's firings are spaced more than `interval` apart too |
| Cooldown.LedgerRemembers | facerecognizer.py:308-312 | after a run, every announced key has a ledger entry no earlier than each of its announcements |
| Cooldown.AnnouncedIsSpacedPerKey | blindaid/modes/scene/scene_mode.py:126-135 | at most one announcement per key per debounce interval: two announcements of a key are more than `interval` apart, and a key is announced at most once per instant |
| Cooldown.AnnouncedAreEvents | facerecognizer.py:307-312 | announcements are a subsequence of the attempts |
| Common.Position | blindaid/modes/scene/scene_mode.py:104-110 | total: "left" iff `x < w/3`, the middle word iff `w/3 <= x < 2w/3`, "right" otherwise (true division); the same rule with "center" appears at blindaid/modes/object_detection/detector.py:38-45, and with "middle" at facerecognizer.py:177-184 and blindaid/modes/face_recognition/recognizer.py:83-90 |
| Common.ThirdOfMonotonic | blindaid/modes/scene/scene_mode.py:105-110 | moving right never moves an object into a third further left |
| Common.ClampBox | blindaid/modes/scene/scene_mode.py:161-162 | clamping gives `0 <= x1, y1` and `x2 <= w-1`, `y2 <= h-1`, moving each corner one way only, and leaves a box already inside unchanged |
| Common.SortedSet | blindaid/modes/people/people_mode.py:102 | `sorted` of a set of names holds each member exactly once, in increasing order |
| Common.StrictlySortedHasNoDuplicates | blindaid/modes/scene/scene_mode.py:120 | a sorted set lists no position twice |
| Common.Lower | blindaid/controller.py:79 | the ASCII fold of `lower()`: each ASCII capital becomes its small letter, every other character is kept, and the length is kept |
| Common.Trunc | facerecognizer.py:284-287 | `int()` truncates toward zero: the result is within one of the value and never farther from zero |
| Common.StripCutsOnlySpace | blindaid/modes/ocr/reader.py:71-72 | `strip()` gives a slice of the text and removes only white space |
| Common.StripEnds | blindaid/modes/ocr/reader.py:71-72 | a stripped text neither starts nor ends with white space |
| Common.StripIdempotent | blindaid/modes/ocr/reader.py:191 | stripping twice is stripping once |
| FaceMatch.ArgMin | facerecognizer.py:197-199 | `np.argmin`: an index of a smallest distance, the first one on a tie |
| FaceMatch.RecognizeFace | facerecognizer.py:186-211 | an empty gallery gives ("Unknown", 0.0); otherwise the nearest face's name iff its distance is at most the threshold, else "Unknown", with confidence `1 - distance`; the same code appears at blindaid/modes/face_recognition/recognizer.py:92-106 |
| FaceMatch.RecognizeFaceClamped | blindaid/modes/people/people_mode.py:68-77 | the name `RecognizeFace` gives, with the confidence `max(0, 1 - distance)`; the same code appears at blindaid/modes/scene/scene_mode.py:92-101 |
| FaceMatch.RecognizedIffWithinThreshold | facerecognizer.py:205-211 | a face is named iff some known face lies within the threshold; the name is a gallery name or "Unknown" |
| FpsMeter.Meter.constructor | facerecognizer.py:99-101 | the meter starts at frame 0 with the timer at `now` |
| FpsMeter.Meter.Tick | facerecognizer.py:137-144 | every frame is counted; the rate and the timer change exactly on every 30th frame, the rate being 30 over the elapsed time or 0; the same code appears at blindaid/modes/face_recognition/recognizer.py:75-81, blindaid/modes/object_detection/detector.py:30-36 |
| FpsMeter.RefreshesCountsMultiples | blindaid/modes/object_detection/detector.py:33 | over any run of frames the rate is recomputed exactly once per multiple of 30 passed |
| FaceService.Detect | facerecognizer.py:282-305 | a face's detection has its box scaled back by `int(v / scale)`, the matched name and confidence, the position of its left edge, and the time it was seen |
| FaceService.Detections | facerecognizer.py:281-305 | one detection per face, in order |
| FaceService.AttemptsExact | facerecognizer.py:308 | the faces offered for announcement are exactly the named ones; "Unknown" is never announced |
| FaceService.OneAnnouncementPerName | facerecognizer.py:307-312 | within one frame no name is announced twice, and each announced name comes from a named face of the frame |
| FaceService.AnnounceSnoc | facerecognizer.py:307-312 | one more face is announced iff it is named and the ledger allows it, and only then does the ledger record it |
| FaceService.FreshExact | facerecognizer.py:152-156 | exactly the detections no older than the overlay timeout are drawn, in order; the same code appears at blindaid/modes/face_recognition/recognizer.py:115-120 |
| FaceService.FreshLater | facerecognizer.py:152-156 | a detection that went stale stays stale later |
| FaceService.FaceTracker.constructor | facerecognizer.py:88-101 | the service starts with nobody announced, nothing to draw, no frame counted and an empty queue; the same code appears at blindaid/modes/face_recognition/recognizer.py:18-43, where there is a player only when audio is enabled |
| FaceService.FaceTracker.ShouldAnnounce | facerecognizer.py:213-218 | true for a name never announced, and otherwise iff more than `debounce` has passed since its last announcement; the same code appears at blindaid/modes/face_recognition/recognizer.py:108-113 |
| FaceService.FaceTracker.Drawn | facerecognizer.py:152-156 | the `_draw_detections` loop draws exactly the fresh detections |
| FaceService.FaceTracker.AnnounceFace | facerecognizer.py:307-312 | a named face that `_should_announce` allows is queued on the player and its time recorded; nothing else changes; the same code appears at blindaid/modes/face_recognition/recognizer.py:207-213, which records the time even when there is no player |
| FaceService.FaceTracker.RecognizeAll | facerecognizer.py:281-312 | the loop returns the frame's detections; the ledger is the debounce ledger after the frame's named faces; the queue receives exactly the announcements the ledger allowed; the same code appears at blindaid/modes/face_recognition/recognizer.py:189-213 |
| FaceService.FaceTracker.Frame | facerecognizer.py:236-341 | every frame is counted by the meter; a frame is processed iff its number is divisible by `process_every`; a skipped frame changes nothing and draws the fresh part of the kept detections; `last_detections` is replaced only by a non-empty list; the pass quits iff the key is "q", on skipped and processed frames alike; the same code appears at blindaid/modes/face_recognition/recognizer.py:151-231 |
| Detector.DescribeExact | blindaid/modes/object_detection/detector.py:53-65 | exactly the boxes with confidence at or above the threshold are described, each as "<name> on the <position>" |
| Detector.AnnouncementNamesFirstThree | blindaid/modes/object_detection/detector.py:47-70 | a message is spoken iff audio is on and some box qualifies; it joins the first one to three descriptions in detection order |
| Detector.ObjectDetector.constructor | blindaid/modes/object_detection/detector.py:15-23 | nothing announced yet (`last_announcement = 0`), an empty queue, a fresh meter |
| Detector.ObjectDetector.AnnounceDetections | blindaid/modes/object_detection/detector.py:47-70 | the loop over results and boxes yields `Announcement`, which is queued when present |
| Detector.ObjectDetector.DescribeBoxes | blindaid/modes/object_detection/detector.py:55-65 | the inner loop extends the descriptions by those of the qualifying boxes |
| Detector.ObjectDetector.AutoAnnounce | blindaid/modes/object_detection/detector.py:114-118 | the automatic announcement runs iff more than 3 s have passed since the last one, and then restarts the cooldown even when it says nothing |
| Detector.ObjectDetector.Frame | blindaid/modes/object_detection/detector.py:88-126 | a pass counts the frame, runs the automatic announcement, and announces again on "s"; "q" quits |
| Reader.ExtractionOfShape | blindaid/modes/ocr/reader.py:70-89 | the high-confidence texts are exactly those scoring strictly above the threshold; every data box has at least 4 points and belongs to a read text |
| Reader.HighOfExact | blindaid/modes/ocr/reader.py:76-77 | the high-confidence list holds exactly the texts whose score is strictly above the threshold |
| Reader.DataOfBoxes | blindaid/modes/ocr/reader.py:79-89 | every `current_text_data` entry has at least 4 points and carries one of the read texts |
| Reader.DictBox | blindaid/modes/ocr/reader.py:79-91 | a dictionary entry keeps its box only when the polygon exists and has at least 4 points |
| Reader.Pairs | blindaid/modes/ocr/reader.py:109 | `reshape(-1, 2)` of an even-length list gives half as many points |
| Reader.KeptBoxesAreQuadrilateralsOrMore | blindaid/modes/ocr/reader.py:88-89 | only boxes with at least 4 points enter `current_text_data` |
| Reader.DictEntryStripped | blindaid/modes/ocr/reader.py:70-73 | a kept dictionary text is non-blank and stripped; the score defaults to 1.0 |
| Reader.DictTextsAreStripped | blindaid/modes/ocr/reader.py:70-73 | every text of a dictionary page is non-blank and stripped |
| Reader.ExtractShape | blindaid/modes/ocr/reader.py:40-136 | as written and with the list branch reached: an empty result gives three empty lists; a legacy list page gives three empty lists as written, and every other result the same lists either way; no more high-confidence or data entries than texts; every data box has 4 or more points and a read text; a dictionary page gives clean texts |
| Reader.ListBranchIsUnreachable | blindaid/modes/ocr/reader.py:52-93 | as written, any legacy list page gives three empty lists |
| Reader.ListBranchCounterexample | blindaid/modes/ocr/reader.py:96-134 | a one-line legacy page with a confident "EXIT" yields nothing as written, and "EXIT" with its box when sent to the list branch |
| Reader.ListLinesAreRead | blindaid/modes/ocr/reader.py:96-134 | with the list branch reached, every readable line gives its text and nothing else is read |
| Reader.ExtractEntries | blindaid/modes/ocr/reader.py:70-91 | the extraction loop yields exactly `ExtractionOf` the entries |
| Reader.AutoReading | blindaid/modes/ocr/reader.py:191-198 | text is read aloud only with audio on, when it is non-empty, differs from the last text read and the cooldown has passed |
| Reader.AutoReadingIsStripped | blindaid/modes/ocr/reader.py:191 | what is read aloud is stripped |
| Reader.ReadStepPromises | blindaid/modes/ocr/reader.py:171-198 | OCR runs iff `frame_count % (frame_skip + 1) == 0`; the count grows every frame; the caches change only to an extraction with some box; a reading updates `last_text` and `last_spoken` together, and nothing else does; a legacy list page reads nothing, says nothing and changes only the count |
| Reader.OcrReader.constructor | blindaid/modes/ocr/reader.py:16-37 | nothing read, `last_spoken = 0`, the cooldown and frame skip from the configuration |
| Reader.OcrReader.ExtractTextFromResult | blindaid/modes/ocr/reader.py:40-136 | returns `ExtractAsWritten` of the result: a legacy list page gives three empty lists, as the dictionary branch's swallowed `TypeError` makes it |
| Reader.OcrReader.ExtractListPage | blindaid/modes/ocr/reader.py:96-134 | the list branch, which the code as written never reaches, reads a legacy page exactly as the corrected `Extract` does |
| Reader.OcrReader.RunOcr | blindaid/modes/ocr/reader.py:172-185 | the frame is counted; OCR runs on every `frame_skip + 1`-th frame; the as-written extraction is returned, and it replaces the caches only when it found some box |
| Reader.OcrReader.ReadAloud | blindaid/modes/ocr/reader.py:190-198 | the automatic reading is queued and remembered with its time |
| Reader.OcrReader.ReadFrame | blindaid/modes/ocr/reader.py:171-198 | the OCR part of a pass leaves the state `ReadStep` gives, with the as-written extraction, and queues what it reads aloud |
| Reader.OcrReader.SpeakAgain | blindaid/modes/ocr/reader.py:224-227 | "s" reads the cached high-confidence texts again; with audio off there is no player, and it raises |
| Reader.OcrReader.Frame | blindaid/modes/ocr/reader.py:161-227 | a pass reads by the as-written extraction, reports "Text detected: n lines" or none (always none on a legacy list page), quits on "q" and reads again on "s" |
| Reading.ParseKeepsReadableEntries | blindaid/modes/ocr/reading_mode.py:64-103 | an empty or falsy result parses to []; dictionary entries with an empty text or no polygon are skipped, the score defaulting to 1.0; legacy lines that are not pairs or whose box does not convert are skipped; nothing is invented |
| Reading.ParseResult | blindaid/modes/ocr/reading_mode.py:64-103 | the parsing loop returns exactly `Parse` of the result |
| Reading.JoinedTextEmptyIffNoText | blindaid/modes/ocr/reading_mode.py:140-142 | the info text is empty iff no cached item has a non-empty text |
| Reading.StableCountMeansRepeats | blindaid/modes/ocr/reading_mode.py:147-152 | after any run the remembered text is the last one, and a count of c means the c calls before it had the same text |
| Reading.StatusExplainsMissingText | blindaid/modes/ocr/reading_mode.py:139-167 | with nothing cached the status names the failed engine or asks for text; with text it is the info text |
| Reading.ReadingMode.constructor | blindaid/modes/ocr/reading_mode.py:18-32 | no engine, no failure, no text, counters at 0 |
| Reading.ReadingMode.EnsureOcr | blindaid/modes/ocr/reading_mode.py:35-55 | an engine that loaded or failed is never loaded again; a failure is recorded for good and no engine is returned |
| Reading.ReadingMode.Refresh | blindaid/modes/ocr/reading_mode.py:127-137 | OCR runs iff the incremented count is divisible by `skip + 1`; the cache is then replaced by the parse, possibly [], and otherwise untouched |
| Reading.ReadingMode.Report | blindaid/modes/ocr/reading_mode.py:139-167 | the stability rule and the speech gate: one utterance at most, the join of the texts scoring at or above the threshold, only with audio on, some such text, a count of at least 2 and the cooldown passed; `last_spoken` then becomes `now` |
| Reading.ReadingMode.ProcessFrame | blindaid/modes/ocr/reading_mode.py:106-169 | a call first draws the cache: a cached box that cannot be drawn raises, and the call ends (`crashed`) exactly then, changing nothing; otherwise it is `Refresh` then `Report`, with the "see logs" line on skipped frames with nothing cached after a failure |
| Reading.ReadingMode.DrawCache | blindaid/modes/ocr/reading_mode.py:112-124 | the drawing loop over the cache raises iff some cached box is not a non-empty list of (x, y) points |
| Reading.UndrawableEntries | blindaid/modes/ocr/reading_mode.py:76-102 | the OCR results whose parse the next frame cannot draw: a kept dictionary entry with an empty polygon, or a kept legacy pair whose box is a flat list of numbers or empty; an empty or falsy result never |
| Reading.ReadingMode.OnEnter | blindaid/modes/ocr/reading_mode.py:172-176 | resets the frame count, the last text and the cache, and keeps the stability count and `last_spoken` |
| Guardian.StateTracksMotion | blindaid/modes/guardian/guardian_mode.py:89-95 | motion makes the mode walk and records `now`; without motion walking turns to sitting only after more than the idle timeout; sitting stays sitting |
| Guardian.WalkingNeedsMotion | blindaid/modes/guardian/guardian_mode.py:89-95 | over any run from sitting, walking at the end means some frame moved, and the last motion time is the last such frame's |
| Guardian.Interval | blindaid/modes/guardian/guardian_mode.py:98 | depth is examined every 30th frame when walking and every 10th when sitting |
| Guardian.CountClose | blindaid/modes/guardian/guardian_mode.py:117 | the count of close values never exceeds the region's size |
| Guardian.RoiEmptyOnlyForTinyMaps | blindaid/modes/guardian/guardian_mode.py:112-114 | the region `[h/2, h) x [w/4, 3w/4)` lies inside the map and is non-empty iff `h >= 1` and `w >= 2` |
| Guardian.DangerIsMoreThanATenth | blindaid/modes/guardian/guardian_mode.py:120 | `close / size > 0.1` iff `10 * close > size` |
| Guardian.DangerBounds | blindaid/modes/guardian/guardian_mode.py:112-120 | a region entirely close shows danger; one with nothing close never does |
| Guardian.GuardianMode.constructor | blindaid/modes/guardian/guardian_mode.py:25-47 | sitting, frame 0, no previous frame, last motion at `now`, last warning at 0 |
| Guardian.GuardianMode.DetectMotion | blindaid/modes/guardian/guardian_mode.py:54-73 | the first frame is never motion; afterwards the frame-difference verdict is |
| Guardian.GuardianMode.CheckSafety | blindaid/modes/guardian/guardian_mode.py:101-132 | a depth failure gives "Depth Error"; "Stop" is said at most once, only on danger and when more than 2 s have passed since the last warning, which then becomes `now` |
| Guardian.GuardianMode.ProcessFrame | blindaid/modes/guardian/guardian_mode.py:75-136 | the frame is counted; the state follows the motion rule; depth is examined iff the count is divisible by the state's interval; the info lines end with "State: <state>" |
| Guardian.GuardianMode.OnEnter | blindaid/modes/guardian/guardian_mode.py:138-140 | the frame count becomes 0 and the mode sits |
| People.Summary | blindaid/modes/people/people_mode.py:92-108 | info starts with "Scan complete"; no one seen gives "No one found."; only unknown faces give "No one recognized."; otherwise "I see " and the known names sorted, each once, "Unknown" excluded |
| People.NamesSeenAreMatches | blindaid/modes/people/people_mode.py:140-142 | a frame with faces adds some name, and only gallery names or "Unknown" |
| People.PeopleMode.constructor | blindaid/modes/people/people_mode.py:20-31 | not started, not finished, nothing loaded, no one seen |
| People.PeopleMode.EnsureLoaded | blindaid/modes/people/people_mode.py:33-46 | does nothing once loaded; only a full success sets the flag, so a failed load is retried |
| People.PeopleMode.OnEnter | blindaid/modes/people/people_mode.py:79-84 | a fresh scan: started at `now`, not finished, no one seen; the models are loaded as `EnsureLoaded` says for each outcome: a detector failure changes nothing, a gallery failure keeps the detector and the faces read so far, and only full success marks them loaded |
| People.PeopleMode.ProcessFrame | blindaid/modes/people/people_mode.py:110-148 | a finished scan returns only "Scan complete" and changes nothing; the first call more than `duration` after the start finishes it with the summary; before that it reports "Scanning for people...", says nothing, and the seen names only grow |
| People.PeopleMode.CollectNames | blindaid/modes/people/people_mode.py:140-142 | each face's name is added to the seen names |
| People.ScanSpeaksOnce | blindaid/modes/people/people_mode.py:112-118 | the call that finishes a scan speaks the summary, and the next call says nothing |
| Scene.ObjectDetection | blindaid/modes/scene/scene_mode.py:156-172 | an object's box is clamped to the frame and its position taken from the clamped box |
| Scene.FaceDetection | blindaid/modes/scene/scene_mode.py:191-208 | a face's box is clamped, its name matched, its confidence non-negative |
| Scene.ObjectDetections | blindaid/modes/scene/scene_mode.py:152-172 | one object detection per box, in order |
| Scene.FaceDetections | blindaid/modes/scene/scene_mode.py:185-208 | one face detection per face, in order |
| Scene.OfKindFilters | blindaid/modes/scene/scene_mode.py:231-232 | the kind filters keep exactly the detections of that kind |
| Scene.DistinctLabelsExact | blindaid/modes/scene/scene_mode.py:115-117 | the grouped labels are exactly the labels present, each once |
| Scene.ObjectSummaryShape | blindaid/modes/scene/scene_mode.py:112-124 | no objects give no summary; otherwise "I see " and one piece per distinct label in first-appearance order |
| Scene.ObjectSummaryPresent | blindaid/modes/scene/scene_mode.py:122-123 | a non-empty object list always has a non-blank summary |
| Scene.PieceListsPositions | blindaid/modes/scene/scene_mode.py:119-121 | a label's piece lists exactly the positions it was seen at, sorted and without repeats |
| Scene.SummarizeObjects | blindaid/modes/scene/scene_mode.py:112-124 | the two passes return exactly `ObjectSummary` |
| Scene.GroupPositions | blindaid/modes/scene/scene_mode.py:115-117 | the first pass gives the labels in first-appearance order and each label's set of positions |
| Scene.GroupStep | blindaid/modes/scene/scene_mode.py:117 | `setdefault(...).add(...)` adds a detection's position to its label's set, creating it empty when new |
| Scene.BuildPieces | blindaid/modes/scene/scene_mode.py:118-121 | the second pass builds one piece per label |
| Scene.FaceEventsAtNow | blindaid/modes/scene/scene_mode.py:128-131 | every attempt of one call is at `now`, and none is for "Unknown" |
| Scene.FaceAnnouncedOncePerCall | blindaid/modes/scene/scene_mode.py:126-135 | a label repeated within one call is announced once, and across calls only after the debounce |
| Scene.FaceStep | blindaid/modes/scene/scene_mode.py:128-134 | one more face: "Unknown" changes nothing; another is announced iff `now - last(label, 0) > debounce`, and then `now` is recorded |
| Scene.SceneMode.constructor | blindaid/modes/scene/scene_mode.py:34-59 | nothing spoken, nothing cached, `process_every = max(1, SCENE_PROCESS_EVERY)` |
| Scene.SceneMode.BuildFaceMessages | blindaid/modes/scene/scene_mode.py:126-135 | the loop's messages and ledger are those of the debounce ledger run over the call's faces |
| Scene.SceneMode.Detect | blindaid/modes/scene/scene_mode.py:147-228 | a frame is processed iff the counter is divisible by `process_every`; a processed frame caches objects then faces; a skipped one reuses the cache unchanged |
| Scene.SceneMode.ReportObjects | blindaid/modes/scene/scene_mode.py:234-240 | a non-empty object list replaces the summary, spoken only with audio on and the cooldown passed, which then restarts |
| Scene.SceneMode.ReportFaces | blindaid/modes/scene/scene_mode.py:242-248 | the ledger runs over the faces, its messages are spoken with audio on, and the face summary is replaced when some face is known |
| Scene.SceneMode.ProcessFrame | blindaid/modes/scene/scene_mode.py:138-255 | the whole frame: detection or cache, then the object and face reports; the info lines are the stored summaries |
| Scene.SceneMode.OnEnter | blindaid/modes/scene/scene_mode.py:258-260 | only the frame counter is reset |
| Depth.CategorizeDepth | blindaid/core/depth.py:82-90 | "very close" iff d < 0.3, "at medium distance" iff 0.3 <= d < 0.6, "far" iff d >= 0.6; metres are `max(0.3, (1 - d) * 4)`, so at least 0.3 |
| Depth.CategorizeDepthMonotonic | blindaid/core/depth.py:82-90 | a farther depth never reads nearer, in words or in metres |
| Depth.ClampedRegionIsNonEmpty | blindaid/core/depth.py:66-70 | a clamped box with `x2 > x1` and `y2 > y1` has a non-empty region |
| Depth.MeasurableIsNonDegenerate | blindaid/core/depth.py:63-70 | a box is skipped exactly when its clamped corners are degenerate |
| Depth.ReadingsFollowKept | blindaid/core/depth.py:62-76 | one reading per kept detection, in order, with its name, median and category |
| Depth.DescriptionOutcomes | blindaid/core/depth.py:55-80 | no detections give the fixed sentence and no debug lines; no kept box gives "Unable to estimate depth for the detected objects."; otherwise the messages joined by spaces, message k about kept detection k |
| Depth.DescribeDetections | blindaid/core/depth.py:55-80 | the loop with its two `continue`s returns exactly `Description` |
| Controller.InitialMode | blindaid/controller.py:79-85 | the starting mode is always a mode: the lower-cased request when it names one, "sitting" otherwise |
| Controller.NonAsciiRequestFallsBack | blindaid/controller.py:79-85 | a requested mode holding any non-ASCII character starts in "sitting" |
| Controller.AudioSetting | blindaid/controller.py:48-49 | audio is the configured default, which a caller can only turn off |
| Controller.ModeController.constructor | blindaid/controller.py:41-98 | current and previous mode are both the initial mode; no instances, no overlays, counter 0; never an audio player |
| Controller.RegisteredBuildsOnce | blindaid/controller.py:143-151 | `_get_mode` builds each mode at most once, never replaces an instance, adds only the key asked for, and a second lookup changes nothing |
| Controller.ModeController.GetMode | blindaid/controller.py:143-151 | an unknown key raises (`None`); a known one returns the stored instance, built on first use |
| Controller.ModeController.SwitchMode | blindaid/controller.py:153-177 | switching to the current or an unknown key changes nothing, not even the registry or the hooks; otherwise the old mode's exit hook and the new mode's enter hook are recorded in that order (`SwitchHooks`), both modes are looked up (`SwitchRegistry`), failures are swallowed, the key changes and exactly one overlay "Switched to <label> mode" expires at now + 2.5 |
| Controller.ModeController.AddOverlay | blindaid/controller.py:179-181 | one overlay appended at the end with expiry `now + duration`, earlier ones untouched |
| Controller.UnexpiredExact | blindaid/controller.py:183-192 | pruning keeps exactly the overlays with `expires_at > now`, in order, adding none |
| Controller.UnexpiredLater | blindaid/controller.py:183-192 | pruning at t1 and then at t2 is pruning at t2 |
| Controller.UnexpiredIdempotent | blindaid/controller.py:183-192 | a second read at the same instant finds the same overlays |
| Controller.ModeController.ActiveOverlays | blindaid/controller.py:183-192 | the stored list becomes the unexpired overlays and their texts are returned |
| Controller.NonEmptyExact | blindaid/controller.py:194-203 | exactly the non-empty messages are passed on, in order |
| Controller.ModeController.SpeakMessages | blindaid/controller.py:194-203 | the non-empty messages go to the player when there is one, to the log otherwise |
| Controller.FpsCounterCountsModulo20 | blindaid/controller.py:205-213 | from a fresh controller the counter is the frame count modulo 20, so it stays in [0, 20) |
| Controller.ModeController.UpdateFps | blindaid/controller.py:205-213 | the counter advances, restarting at 20, and the time is noted then |
| Controller.RequestsAlwaysReport | blindaid/controller.py:225-279 | every question request ends by saying the answer or why there is none; a caption request shows "Analyzing scene..." and speaks only a non-empty caption |
| Controller.ModeController.Report | blindaid/controller.py:225-279 | a request's overlays are appended in order, each expiring its duration after `now`, and then its non-empty messages are spoken or logged |
| Controller.ModeController.HandleCaption | blindaid/controller.py:225-240 | the caption request's overlays and speech |
| Controller.ModeController.HandleVqa | blindaid/controller.py:242-279 | the question request's overlays and speech |
| Controller.LastSix | blindaid/controller.py:324 | `lines[-6:]` is the last six lines, or all when fewer |
| Controller.DrawnLines | blindaid/controller.py:306-324 | at most six lines are drawn, the last ones, bottom first |
| Controller.ModeInfo | blindaid/controller.py:378-383 | the sitting mode shows its hint; other modes show their own info |
| Controller.ModeSpeech | blindaid/controller.py:378-383 | the sitting mode says nothing |
| Controller.SwitchOverlay | blindaid/controller.py:370-376 | the automatic return adds an overlay iff people mode has finished and was entered from another mode |
| Controller.ModeController.Start | blindaid/controller.py:352-360 | the first mode is built and entered, the greeting shown for 3 s and said; afterwards the current mode is registered (`Running`) |
| Controller.ModeController.AutoReturn | blindaid/controller.py:369-376 | a finished people mode hands back to the remembered mode before any frame is processed; the hooks and registry change exactly as that switch makes them, and not at all otherwise |
| Controller.ModeController.Render | blindaid/controller.py:378-389 | the mode's speech is passed on, the counter advances and the time is noted when it restarts, the overlays are pruned and the drawn lines composed |
| Controller.ModeController.HandleKey | blindaid/controller.py:398-413 | "0", "1", "2" switch to sitting, guardian, reading; "3" outside people mode remembers the current mode and switches to people; the new mode is `KeyTarget`, the added overlays `KeyOverlays`, the recorded hooks `SwitchHooks` and the registry `SwitchRegistry` of that switch, and the messages spoken or logged the non-empty `KeySpeech`: the request's lines for "4" and "5", the audio check for "t"; the FPS state is untouched |
| Controller.ModeController.Step | blindaid/controller.py:362-413 | one pass: the automatic return, the frame, then the key; "q" quits and changes nothing more; the new mode is `KeyTarget` of the mode that ran; the overlays are those unexpired after the return plus the key's; the frame's messages and then the key's are spoken or logged; "3" remembers the mode that ran; the hooks and registry are those of the return's switch followed by the key's; the FPS counter and its time advance as in `Render`; the current mode stays registered |
| Controller.ModeController.ModeKey | blindaid/controller.py:398-406 | keys "0" to "3" move to `KeyTarget` and add the `SwitchOverlays` line only on a change; "3" outside people mode remembers the mode it leaves, every other case keeps the remembered mode; the hooks and registry change as that switch makes them; nothing is said and the FPS state is untouched |
| Controller.ModeController.ActionKey | blindaid/controller.py:407-413 | keys "4", "5" and "t" leave the mode, the hooks, the registry and the FPS state alone and add exactly `KeyOverlays` and the non-empty `KeySpeech`; "q" and unbound keys add nothing |
| Controller.KeyEffects | blindaid/controller.py:398-413 | every key leaves a mode; a mode key adds one "Switched to" overlay iff it changes the mode, says nothing, and pressed again changes nothing; "q" and unbound keys do nothing |
| Controller.SwitchEffects | blindaid/controller.py:143-177 | a switch to another mode records the old mode's exit hook first and the new mode's enter hook last, and registers both modes, keeping every stored instance and calling the factory at most twice; a switch to the current mode adds no hook, no overlay and no instance |
| Controller.ModeController.RunMode | blindaid/controller.py:362-389 | the part of a pass before the key: the mode that runs is the automatic return's, the drawn lines are its information plus the unexpired overlays, its speech is spoken or logged, and the remembered mode is untouched |
| Controller.ModeController.KeyPhase | blindaid/controller.py:391-413 | the end of a pass: "q" leaves the loop and changes nothing; every other key acts as `HandleKey` |

## Left out

- Threads and locking: the worker thread of the speech player, the blocking
  of `Queue.get` and `put`, the two-second `join` timeout, the global
  `shutdown_event`, the controller's lock and its background preload thread.
  The queue is a sequential FIFO: the worker runs only when `WorkerStep`,
  `Drain` or `Shutdown` is called.
- Camera, window and drawing: `VideoCapture`, `imshow`, `waitKey`,
  `putText`, `rectangle`, `polylines`. Only the lists the drawing code reads
  are modelled, such as the overlay lines and the fresh face detections.
  The one drawing failure modelled is reading mode's cached box that
  `polylines` or `box[0]` cannot take (`Reading.ReadingMode.DrawCache`).
- The perception libraries: YOLO, the face encoder, PaddleOCR, the DPT depth
  model, BLIP captions and speech recognition. Their results are inputs.
  Examples are a face's distances to the gallery, an OCR result, a depth map
  or failure, and a caption or answer outcome.
- Pixel work: the frame difference of `_detect_motion`, which is the
  boolean input `changed`, the depth-map normalisation, and `np.median`,
  which is the function parameter `median`.
- Floating point: reals stand for Python floats, with no rounding. The FPS
  value is the exact quotient. The guardian's `int(h/2)` and `int(3*w/4)`
  on non-negative sizes are the integer divisions they equal.
- FaceService.FaceTracker.Frame: every `time.time()` of a pass is the same
  `now`. The source reads the clock separately for each detection's
  timestamp and each `last_spoken` entry.
- Controller.ModeController.UpdateFps: the model keeps `fps_counter` and
  `fps_last_time` but not `fps_value`, the displayed rate set at
  blindaid/controller.py:211 and drawn as "FPS:…" at line 295. It is a
  floating-point quotient, and only the drawing reads it.
- Controller.ModeController.Report: every overlay of a request expires its
  duration after the same `now`. The source reads the clock again in each
  `_add_overlay` (blindaid/controller.py:180). Between two overlays of one
  request it blocks in `waitKey`, `time.sleep(0.5)`, the listener and the
  caption or answer model (lines 228-265). So a later overlay of the same
  request expires later than the model says.
- Controller.ModeController.HandleCaption: the same single `now` for all its
  overlays, as for `Report`.
- Controller.ModeController.HandleVqa: the same single `now` for all its
  overlays, as for `Report`.
- Controller.ModeController.Step: one `now` for the whole pass. The key's
  overlays expire relative to the time the pass started, not to the clock
  of each `_add_overlay`.
- Detector.ObjectDetector.Frame: one `now` for the pass. The source reads
  the clock separately for the FPS window (blindaid/modes/object_detection/detector.py:34 and 36) and for
  the announcement gate (line 115).
- Reader.OcrReader.ReadAloud: one `now` for the gate and for the stored
  time. The source reads the clock once for the cooldown test
  (blindaid/modes/ocr/reader.py:194) and again after queueing the text
  (line 198).
- People.PeopleMode.ProcessFrame: `time.monotonic()` and `time.time()` are
  one clock.
- Reading.ReadingMode.ProcessFrame: a legacy OCR line whose text is an
  empty list or tuple makes `text_info[0]` raise `IndexError`, which
  escapes `process_frame`. The model gives such a line the empty text.
- Reading.ParseResult: `float(score)` and `str(text)` are taken as
  succeeding. Texts and scores arrive already converted.
- `_load_known_faces` in every file: a directory walk and image decoding.
  The gallery is a list of names.
- `__init__` with `process_every` or `scale` equal to 0 in the face
  services: the model requires them to be non-zero, and the source fails on
  either at once. With `process_every` 0, the `%` at facerecognizer.py:250
  and blindaid/modes/face_recognition/recognizer.py:163 raises
  `ZeroDivisionError` on the first frame. With `scale` 0,
  `cv2.resize(frame, (0, 0), fx=0, fy=0)` at facerecognizer.py:264 and
  recognizer.py:178 raises `cv2.error` on the first processed frame. That
  happens before the `int(v / scale)` divisions are reached.
- Common.Lower: folds only the ASCII capitals. Python's `lower()` folds
  every cased character and can change the length: "İ" becomes two
  characters. The one use, the requested mode at blindaid/controller.py:79-85,
  picks the same mode either way. Every mode key is plain lower-case ASCII.
  The only non-ASCII character whose `lower()` is entirely ASCII is the
  Kelvin sign, which becomes "k", and no mode key contains a "k". So a
  request holding a non-ASCII character names no mode under either fold,
  and falls back to "sitting" (`Controller.NonAsciiRequestFallsBack`).
- blindaid/core/caption.py, blindaid/core/speech_recognition.py,
  blindaid/app.py, blindaid/__main__.py and blindaid/core/base_mode.py:
  wrappers, argument parsing and an abstract base, none of them part of the
  core. The controller's caption and question requests take their outcome
  as an input.
- Reader.OcrReader.Frame: the "s" key with audio off raises
  `AttributeError` on the missing player. The model reports this as
  `crashed` and does not model the `finally` clean-up that follows.

## Findings

| source | as written | input that shows it | evidently intended | confidence | as-written member | corrected member |
|---|---|---|---|---|---|---|
| blindaid/modes/ocr/reader.py:52-96 | `_extract_text_from_result` sends every page that has `__getitem__` to the dictionary branch. A legacy list page has one, and its `ocr_result['rec_texts']` raises `TypeError`. The bare `except` swallows it, so the list branch at lines 96-134 is never reached and a legacy page reads as no text | `[[ [[0,0],[10,0],[10,5],[0,5]], ("EXIT", 0.99) ]]` | a legacy page goes to the list branch and yields "EXIT" with its box | not executed | Reader.ListBranchCounterexample | Reader.ListLinesAreRead |
