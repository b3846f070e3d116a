# SmartCameraX — a verified model of the camera's control logic

SmartCameraX is an Android camera application. Its screen takes a photo on a tap and records a
video while the capture button is held. It cycles colour filters over the preview, switches
between the back and the front camera, and drives the flash. In "smart mode" it runs a frame
analyzer that reads text and QR codes. A gallery lists the photos and videos the app saved,
newest first.

This project models the parts of that code that follow exact rules, and proves properties of
them:

- **The smart analyzer** (`smart_analyzer.dfy`, module `Analyzers`):
  - the single-flight gate that admits one frame at a time and closes every frame it gets;
  - the merge of the text and barcode detector outputs into one line
    (`"TEXTO: "`…`"\n"`, `"QR: "` plus the raw values joined by spaces, then Java `trim()`).

  The gate is a state machine over a trace of events (frame arrives, both detectors complete,
  `close()`). The class `SmartAnalyzer` has the source's fields, and each of its methods is
  proved to move them as one step of that machine.
- **The camera screen** (`camera_control.dfy`, module `CameraControl`; `camera_activity.dfy`,
  module `CameraScreen`):
  - the capture button, the long-press timer and the recorder callbacks;
  - the filter button and the filter loop, the switch, smart and flash buttons;
  - `bindCameraUseCases` and `onDestroy`.

  The pending handler posts and the camera-provider future are counted in the state. An event
  that waits on one of them is enabled only while one is pending. What the screen asks of the
  platform is appended to a log of effects: take a picture, start or stop a recording, set the
  torch, create or close an analyzer. The class `CameraActivity` has the activity's fields, and
  each handler is proved to be one step of the machine. Its invariant and lemmas therefore apply
  to the object.
- **The gallery and storage** (`gallery.dfy`, `image_store.dfy`, `media_item.dfy`,
  `gallery_adapter.dfy`, `image_viewer.dfy`, `saved_media.dfy`):
  - the media-store queries and their selection arguments by Android version;
  - the merge of photo and video rows and the stable newest-first sort;
  - the click handler's index-aligned lists;
  - `MediaItem` equality and hashing, the adapter's diff callbacks and badge;
  - the viewer's start-position clamp;
  - the display names the camera saves under.

  The content resolver is a function from the query the app builds to what the query yields:
  an exception, a null cursor, or rows.
- `java_text.dfy` (module `JavaText`) holds the Java and SQL semantics the rest relies on:
  - `String.trim()`, which strips characters up to U+0020;
  - `String.join`;
  - 32-bit `int` wrap-around;
  - SQLite `LIKE` with `%`, `_` and ASCII case folding.

Points where the model keeps the code's own behaviour:

- The merged line uses the labels `"TEXTO: "` and `"QR: "`.
- The text part ends in `"\n"`, which `trim()` removes when no codes follow.
- A detector that fails contributes nothing.
- Every bind in smart mode creates a new `SmartAnalyzer` and does not close the previous one.
  See Findings.
- A failed bind is only logged. `currentCamera` keeps the camera of the previous bind.
- `onDestroy` closes the analyzer but leaves the field set, stops a running recording, and
  does not unbind the use cases. It removes neither the provider-future listeners nor the
  recorder's listener: a bind still pending runs afterwards, and the recording's Start and
  Finalize events still arrive. See Findings.
- The filter and flash buttons do not rebind. Only the switch and smart buttons call
  `startCamera()`.

## Model

| member | source | states |
|---|---|---|
| JavaText.TrimStart | app/src/main/java/com/david/smartcamerax/analyzers/SmartAnalyzer.java:108-109 | the leading part `trim()` removes: the result is no longer and does not start with a character up to U+0020 |
| JavaText.TrimStartIsSuffix | app/src/main/java/com/david/smartcamerax/analyzers/SmartAnalyzer.java:108-109 | what is left is a suffix of the input and everything dropped is whitespace or control |
| JavaText.TrimEnd | app/src/main/java/com/david/smartcamerax/analyzers/SmartAnalyzer.java:137 | the trailing part `trim()` removes: the result does not end with a character up to U+0020 |
| JavaText.TrimEndIsPrefix | app/src/main/java/com/david/smartcamerax/analyzers/SmartAnalyzer.java:137 | what is left is a prefix and everything dropped is whitespace or control |
| JavaText.Trim | app/src/main/java/com/david/smartcamerax/analyzers/SmartAnalyzer.java:108-109 | Java `trim()`: neither end of a non-empty result is a character up to U+0020 |
| JavaText.TrimEmptyIffBlank | app/src/main/java/com/david/smartcamerax/analyzers/SmartAnalyzer.java:108 | `t.trim().isEmpty()` holds exactly when every character of `t` is at most U+0020 |
| JavaText.TrimIsFactor | app/src/main/java/com/david/smartcamerax/analyzers/SmartAnalyzer.java:109 | `trim()` returns a contiguous slice of its input with only blanks around it |
| JavaText.TrimStartOfKept | app/src/main/java/com/david/smartcamerax/analyzers/SmartAnalyzer.java:137 | a string that starts with a kept character loses nothing at the front |
| JavaText.TrimOfTrimmed | app/src/main/java/com/david/smartcamerax/analyzers/SmartAnalyzer.java:137 | a string with kept characters at both ends is its own `trim()` |
| JavaText.TrimIdempotent | app/src/main/java/com/david/smartcamerax/analyzers/SmartAnalyzer.java:137 | trimming twice is trimming once |
| JavaText.TrimEndDropsSuffix | app/src/main/java/com/david/smartcamerax/analyzers/SmartAnalyzer.java:137 | a blank tail is removed entirely |
| JavaText.TrimEndKeepsPrefix | app/src/main/java/com/david/smartcamerax/analyzers/SmartAnalyzer.java:137 | trimming the end of `a + b` keeps `a` whole when `b` has a kept character |
| JavaText.JoinEndsWithLast | app/src/main/java/com/david/smartcamerax/analyzers/SmartAnalyzer.java:129 | `String.join` ends with its last part |
| JavaText.Wrap32 | app/src/main/java/com/david/smartcamerax/MediaItem.java:29-32 | the 32-bit `int` result is congruent to the exact value modulo 2^32 |
| JavaText.Wrap32Successor | app/src/main/java/com/david/smartcamerax/MediaItem.java:31 | adding one always changes a 32-bit value, wrap-around included |
| JavaText.LikeContains | app/src/main/java/com/david/smartcamerax/storage/ImageStore.java:63-69 | `'%' + needle + '%'` matches every name or path containing the needle |
| JavaText.LikeLiteralThenAny | app/src/main/java/com/david/smartcamerax/storage/ImageStore.java:63-69 | a wildcard-free prefix followed by `%` matches every extension of that prefix |
| JavaText.LikeAnyMatchesAll | app/src/main/java/com/david/smartcamerax/storage/ImageStore.java:63-69 | `%` matches every string |
| JavaText.LikeNeedsFirstChar | app/src/main/java/com/david/smartcamerax/storage/ImageStore.java:67-68 | a string matched by `'%' + needle + '%'` contains the needle's first letter, case-folded |
| MediaItems.EqualsIgnoresDate | app/src/main/java/com/david/smartcamerax/MediaItem.java:25 | two items are equal iff uri and kind agree; dateAdded is ignored |
| MediaItems.EqualsOnlyItems | app/src/main/java/com/david/smartcamerax/MediaItem.java:23 | null and objects of other classes are never equal to an item |
| MediaItems.EqualsIsEquivalence | app/src/main/java/com/david/smartcamerax/MediaItem.java:21-26 | `equals` is reflexive, symmetric and transitive |
| MediaItems.EqualItemsHashAlike | app/src/main/java/com/david/smartcamerax/MediaItem.java:29-32 | equal items have equal 32-bit hash codes |
| MediaItems.KindSeparatesHashes | app/src/main/java/com/david/smartcamerax/MediaItem.java:31 | a photo and a video with the same uri never hash alike |
| GalleryAdapter.ContentsSameImpliesItemsSame | app/src/main/java/com/david/smartcamerax/GalleryAdapter.java:25-32 | same contents implies same item; same item has same contents iff the kinds agree |
| GalleryAdapter.OnItemClick | app/src/main/java/com/david/smartcamerax/GalleryAdapter.java:49-53 | a click reports the bound item with its own position, and nothing without a listener |
| GalleryAdapter.BindBadge | app/src/main/java/com/david/smartcamerax/GalleryAdapter.java:69-71 | a cell with a badge view shows it iff the item is a video; a cell without one is left as it was |
| GalleryAdapter.RecycledBadgeMarksLastItem | app/src/main/java/com/david/smartcamerax/GalleryAdapter.java:66-72 | a recycled holder with a badge view, bound to any items in turn, shows the badge iff the last item is a video, whatever it showed before |
| GalleryAdapter.NoBadgeViewNoChange | app/src/main/java/com/david/smartcamerax/GalleryAdapter.java:69 | binding never changes a holder that has no badge view |
| ImageViewer.StartPosition | app/src/main/java/com/david/smartcamerax/ImageViewerActivity.java:35-42 | missing extras read as position 0 and an empty list; the index is at least 0, within the list when it is non-empty, equal to the position when that is in range, and 0 for an empty list |
| ImageStore.BuildContentValues | app/src/main/java/com/david/smartcamerax/storage/ImageStore.java:21-29 | name and JPEG type always set; the relative path `Pictures/SmartCameraX` set iff SDK >= 29; no other key |
| ImageStore.ImageByNameQuery | app/src/main/java/com/david/smartcamerax/storage/ImageStore.java:33-38 | the photo query selects by exact display name (`_display_name=?` with the name as argument), newest first |
| ImageStore.GetImageContentUri | app/src/main/java/com/david/smartcamerax/storage/ImageStore.java:32-47 | the uri of the first row read, or null when the query throws, gives no cursor or no row |
| ImageStore.GetImageContentUriIsNewest | app/src/main/java/com/david/smartcamerax/storage/ImageStore.java:38-41 | with the requested order honoured, the uri found is that of a newest row |
| ImageStore.AppImagesSelectionArg | app/src/main/java/com/david/smartcamerax/storage/ImageStore.java:63-69 | `%Pictures/SmartCameraX%` from SDK 29 on, `%SmartCameraX%` before |
| ImageStore.AppImagesQuery | app/src/main/java/com/david/smartcamerax/storage/ImageStore.java:52-73 | the photo collection, matched with LIKE on `relative_path` from SDK 29 on and on `_display_name` before, with the argument above, newest first |
| ImageStore.QueryAppImages | app/src/main/java/com/david/smartcamerax/storage/ImageStore.java:50-87 | one photo uri per row read, in cursor order; a failure returns what was read so far |
| ImageStore.SavedPhotosAreSelected | app/src/main/java/com/david/smartcamerax/storage/ImageStore.java:63-65 | from SDK 29 on, the query matches `relative_path` and every photo saved under the app's folder is selected (the folder is set at line 26) |
| Gallery.SelectionArg | app/src/main/java/com/david/smartcamerax/GalleryActivity.java:124-160 | the photo and video LIKE arguments by SDK |
| Gallery.GalleryQuery | app/src/main/java/com/david/smartcamerax/GalleryActivity.java:116-161 | each collection is queried with its own selection argument, matched with LIKE on `relative_path` from SDK 29 on and on `_display_name` before, newest first |
| Gallery.GalleryPhotosMatchImageStore | app/src/main/java/com/david/smartcamerax/GalleryActivity.java:124-130 | the gallery and ImageStore select photos with the same argument on every SDK |
| Gallery.InsertNewestPermutes | app/src/main/java/com/david/smartcamerax/GalleryActivity.java:175 | one insertion step of the sort adds exactly the inserted item |
| Gallery.InsertNewestSorted | app/src/main/java/com/david/smartcamerax/GalleryActivity.java:175 | inserting into a newest-first list keeps it newest first |
| Gallery.SortPermutes | app/src/main/java/com/david/smartcamerax/GalleryActivity.java:175 | the sort is a permutation of its input |
| Gallery.SortIsNewestFirst | app/src/main/java/com/david/smartcamerax/GalleryActivity.java:175 | the sort's result is ordered by non-increasing dateAdded |
| Gallery.InsertNewestKeepsTies | app/src/main/java/com/david/smartcamerax/GalleryActivity.java:175 | an inserted item goes before every item of its own date that was there (it is inserted from the back) |
| Gallery.SortIsStable | app/src/main/java/com/david/smartcamerax/GalleryActivity.java:175 | like `Collections.sort`, items of one date keep their input order |
| Gallery.AddedAtAppend | app/src/main/java/com/david/smartcamerax/GalleryActivity.java:175 | the items of one date in `a + b` are those of `a`, then those of `b` |
| Gallery.QueryAppMedia | app/src/main/java/com/david/smartcamerax/GalleryActivity.java:113-177 | the photo rows then the video rows, each tagged with its kind, sorted newest first; a permutation; stable per date; one failing query never stops the other; every entry is a video iff its uri is in the video collection, the photos in the result are exactly the photo rows' items and the videos exactly the video rows' items |
| Gallery.PhotosBeforeVideosOnTies | app/src/main/java/com/david/smartcamerax/GalleryActivity.java:136-175 | within one date every photo precedes every video |
| Gallery.AddedAtKeepsKind | app/src/main/java/com/david/smartcamerax/GalleryActivity.java:136-170 | selecting one date keeps the kind of every item |
| Gallery.ViewerArgs | app/src/main/java/com/david/smartcamerax/GalleryActivity.java:73-79 | the uri list and the flag array have the list's length, and element i of each comes from item i |
| Gallery.GalleryScreen.LoadImages | app/src/main/java/com/david/smartcamerax/GalleryActivity.java:92-102 | with no media the label is shown, the grid hidden and the adapter unchanged; otherwise the label hidden, the grid shown and the list submitted |
| Analyzers.TextPart | app/src/main/java/com/david/smartcamerax/analyzers/SmartAnalyzer.java:103-115 | the text line is present iff the text task succeeded with a text that is not blank, and is then `"TEXTO: " + trim(t) + "\n"` |
| Analyzers.KeptRawValues | app/src/main/java/com/david/smartcamerax/analyzers/SmartAnalyzer.java:121-127 | at most one value per barcode, and no kept value is empty |
| Analyzers.KeptRawValuesAreTheNonEmpty | app/src/main/java/com/david/smartcamerax/analyzers/SmartAnalyzer.java:122-126 | a value is kept iff some barcode has it as a non-null, non-empty raw value |
| Analyzers.KeptRawValuesAppend | app/src/main/java/com/david/smartcamerax/analyzers/SmartAnalyzer.java:122-127 | filtering distributes over concatenation, so input order is kept |
| Analyzers.CollectRawValues | app/src/main/java/com/david/smartcamerax/analyzers/SmartAnalyzer.java:121-127 | the loop collects exactly the kept raw values |
| Analyzers.CodesPart | app/src/main/java/com/david/smartcamerax/analyzers/SmartAnalyzer.java:117-135 | the code line is present iff the barcode task succeeded and some value survives, and is then `"QR: "` plus the values joined by single spaces |
| Analyzers.FinalResult | app/src/main/java/com/david/smartcamerax/analyzers/SmartAnalyzer.java:137 | null iff the builder is empty; otherwise `sb.toString().trim()`, a non-empty string equal to its own `trim()` |
| Analyzers.MergeResults | app/src/main/java/com/david/smartcamerax/analyzers/SmartAnalyzer.java:101-137 | null iff neither part is present; otherwise the trim of the text part followed by the code part, non-empty and trimmed |
| Analyzers.BuildResult | app/src/main/java/com/david/smartcamerax/analyzers/SmartAnalyzer.java:101-137 | the builder code computes the merged result |
| Analyzers.NotifiesIffSomeLine | app/src/main/java/com/david/smartcamerax/analyzers/SmartAnalyzer.java:137-141 | the listener is notified iff the text or the code part is present |
| Analyzers.TrimOfKeptStart | app/src/main/java/com/david/smartcamerax/analyzers/SmartAnalyzer.java:137 | the builder never starts with a blank, so `trim()` only cuts its end |
| Analyzers.MergeTextOnly | app/src/main/java/com/david/smartcamerax/analyzers/SmartAnalyzer.java:109-137 | text alone yields `"TEXTO: " + trim(t)`, with the newline removed |
| Analyzers.MergeWithCodes | app/src/main/java/com/david/smartcamerax/analyzers/SmartAnalyzer.java:109-137 | with codes, the text line is kept whole and only the code line's end is trimmed |
| Analyzers.CodesLineKeptWhole | app/src/main/java/com/david/smartcamerax/analyzers/SmartAnalyzer.java:129-137 | a code line whose last value ends in a kept character is not trimmed |
| Analyzers.FailedDetectorIsIgnored | app/src/main/java/com/david/smartcamerax/analyzers/SmartAnalyzer.java:103-143 | a failed task counts as an empty result, and the other detector's part is still used |
| Analyzers.MergeExample | app/src/main/java/com/david/smartcamerax/analyzers/SmartAnalyzer.java:101-137 | `"Hello"` and code `"ABC123"` give `"TEXTO: Hello\nQR: ABC123"` |
| Analyzers.BlankCodeStillNotifies | app/src/main/java/com/david/smartcamerax/analyzers/SmartAnalyzer.java:124-138 | a single blank code value still notifies, with `"QR:"` |
| Analyzers.InitialInv | app/src/main/java/com/david/smartcamerax/analyzers/SmartAnalyzer.java:62-66 | the new analyzer is idle with no frame held |
| Analyzers.StepPreservesInv | app/src/main/java/com/david/smartcamerax/analyzers/SmartAnalyzer.java:79-154 | every step keeps the gate invariant: busy iff a frame is held; the completed frames are the admitted ones in order, with at most the held one outstanding; every arrived frame is either closed once or held |
| Analyzers.RunPreservesInv | app/src/main/java/com/david/smartcamerax/analyzers/SmartAnalyzer.java:87-151 | over every trace at most one frame is admitted and not completed |
| Analyzers.Arrivals | app/src/main/java/com/david/smartcamerax/analyzers/SmartAnalyzer.java:79 | the trace of a burst of frames, one arrival per frame in order |
| Analyzers.FrameWithoutImageIsClosed | app/src/main/java/com/david/smartcamerax/analyzers/SmartAnalyzer.java:81-84 | a frame without image is closed and the gate is untouched |
| Analyzers.BusyGateDropsAll | app/src/main/java/com/david/smartcamerax/analyzers/SmartAnalyzer.java:87-90 | while busy, every arriving frame is closed at once and the gate stays busy with the same frame |
| Analyzers.BurstAdmitsOne | app/src/main/java/com/david/smartcamerax/analyzers/SmartAnalyzer.java:87-90 | of a burst arriving at an idle gate, the first frame is admitted and the rest closed |
| Analyzers.OneFrameRoundTrip | app/src/main/java/com/david/smartcamerax/analyzers/SmartAnalyzer.java:87-152 | an admitted frame is closed once on completion, its result posted iff non-empty, and the gate is idle again |
| Analyzers.CloseClosesBoth | app/src/main/java/com/david/smartcamerax/analyzers/SmartAnalyzer.java:162-173 | `close()` closes both recognizers and leaves the frames alone |
| Analyzers.SmartAnalyzer.constructor | app/src/main/java/com/david/smartcamerax/analyzers/SmartAnalyzer.java:62-66 | the fields start in the initial state |
| Analyzers.SmartAnalyzer.Analyze | app/src/main/java/com/david/smartcamerax/analyzers/SmartAnalyzer.java:79-98 | `analyze` moves the fields as a frame arrival step |
| Analyzers.SmartAnalyzer.OnDetectorsComplete | app/src/main/java/com/david/smartcamerax/analyzers/SmartAnalyzer.java:99-153 | the completion listeners move the fields as a completion step with the merged result |
| Analyzers.SmartAnalyzer.PostAndRelease | app/src/main/java/com/david/smartcamerax/analyzers/SmartAnalyzer.java:138-152 | post a non-empty result, close the frame, clear the flag |
| Analyzers.SmartAnalyzer.Close | app/src/main/java/com/david/smartcamerax/analyzers/SmartAnalyzer.java:162-173 | `close` moves the fields as a close step |
| CameraControl.StepPreservesInv | app/src/main/java/com/david/smartcamerax/CameraActivity.java:128-609 | every handler keeps the invariant: filter index in {0,1,2}; one pending filter tick iff the loop runs; at most one pending long-press timer; no photo and at most one recording attempt during a press; no flash on the front camera; the torch never switched on with the front camera selected |
| CameraControl.RunPreservesInv | app/src/main/java/com/david/smartcamerax/CameraActivity.java:128-609 | the invariant holds after every trace |
| CameraControl.InitialInv | app/src/main/java/com/david/smartcamerax/CameraActivity.java:191-333 | the screen after `onCreate` satisfies the invariant |
| CameraControl.RecordingEffectsCount | app/src/main/java/com/david/smartcamerax/CameraActivity.java:480-503 | one `startRecording` call logs exactly one recording attempt (started or refused), no photo and no torch request |
| CameraControl.PressIsTapOrHold | app/src/main/java/com/david/smartcamerax/CameraActivity.java:290-310 | a press ends with exactly one of a photo or a recording attempt: a photo iff the long press had not started; afterwards the button is up and no timer is pending |
| CameraControl.LongPressStartsRecording | app/src/main/java/com/david/smartcamerax/CameraActivity.java:128-134 | the timer starts a recording iff the button is held and nothing is recording; the recording is fresh, asks for audio permission iff it lacks it, and is refused without a recorder (the recording itself is started at lines 480-503) |
| CameraControl.IsRecordingFollowsRecorder | app/src/main/java/com/david/smartcamerax/CameraActivity.java:501-513 | `isRecording` is set only by Start, cleared only by Finalize, and untouched by every other event |
| CameraControl.StopRecordingOnlyWithRecording | app/src/main/java/com/david/smartcamerax/CameraActivity.java:518-522 | `stopRecording` stops the current recording, and does nothing without one |
| CameraControl.FilterClickCycles | app/src/main/java/com/david/smartcamerax/CameraActivity.java:260-276 | the filter index advances 0, 1, 2, 0; the loop runs iff a filter is chosen and the overlay exists; three clicks return to the same filter |
| CameraControl.FilterPreviewIdempotent | app/src/main/java/com/david/smartcamerax/CameraActivity.java:594-609 | starting or stopping twice equals once; start is a no-op without overlay and leaves one tick pending otherwise; stop leaves none |
| CameraControl.FilterLoopEnds | app/src/main/java/com/david/smartcamerax/CameraActivity.java:146-178 | a tick reposts itself only while the loop runs, and otherwise ends the loop |
| CameraControl.FrontCameraNeverLit | app/src/main/java/com/david/smartcamerax/CameraActivity.java:524-541 | from the start, no torch request made while the front camera is selected is ever "on", and the flash flag is off on the front camera (the switch at lines 243-252 and the flash button at 320-324 keep the flag off) |
| CameraControl.BindAttachesUseCases | app/src/main/java/com/david/smartcamerax/CameraActivity.java:387-453 | preview and photo capture always bound, analysis iff smart mode, video iff the recorder was built; a failed bind binds nothing and keeps the previous camera; a failing provider changes nothing |
| CameraControl.RebindInSmartModeLeaksAnalyzer | app/src/main/java/com/david/smartcamerax/CameraActivity.java:418-435 | in smart mode a bind while the screen lives replaces the analyzer without closing it: the old one stays open and unreachable |
| CameraControl.CorrectedBindKeepsOneAnalyzer | app/src/main/java/com/david/smartcamerax/CameraActivity.java:418-435 | with the analyzer reused as the comments at lines 383-384 and 423 describe, a bind leaves exactly the analyzer smart mode asks for open; a smart-mode bind that finds one keeps it and creates none; with smart mode off the held one is closed |
| CameraControl.CorrectedRebindReusesAnalyzer | app/src/main/java/com/david/smartcamerax/CameraActivity.java:418-435 | two smart-mode binds with reuse leave one analyzer, the one the first bind created |
| CameraControl.SmartOffClosesAnalyzer | app/src/main/java/com/david/smartcamerax/CameraActivity.java:408-415 | with smart mode off, a bind closes the analyzer once and clears the field |
| CameraControl.SmartModeLeakExample | app/src/main/java/com/david/smartcamerax/CameraActivity.java:418-435 | smart on, bind, switch, bind: analyzer 0 is never closed (through the smart button at 279-284 and the switch at 242-257) |
| CameraControl.TorchRequestedOfFrontCamera | app/src/main/java/com/david/smartcamerax/CameraActivity.java:524-541 | a flash click while a switch back to the back camera is still binding asks the front camera object to light its torch (from the flash button at 317-327) |
| CameraControl.CorrectedTorchNeverLightsFront | app/src/main/java/com/david/smartcamerax/CameraActivity.java:524-541 | an updateTorch that asks for the torch only of a back camera never logs a request to light a front camera, keeps the flash flag as written, and agrees with the original whenever the bound camera is the selected one or a back camera |
| CameraControl.DestroyReleases | app/src/main/java/com/david/smartcamerax/CameraActivity.java:550-564 | `onDestroy` stops the filter loop and the timer, closes the held analyzer (the field stays set), stops a running recording; afterwards every event other than a pending provider listener or a recorder event is disabled |
| CameraControl.NothingClosedAfterDestroy | app/src/main/java/com/david/smartcamerax/CameraActivity.java:550-564 | once the screen is destroyed in smart mode, every run of the events that still arrive keeps every open analyzer open and logs no close |
| CameraControl.BindAfterDestroyLeaksAnalyzer | app/src/main/java/com/david/smartcamerax/CameraActivity.java:363-372 | a provider listener that runs after `onDestroy` in smart mode still creates an analyzer (line 424), which the field holds and which stays open in every later run |
| CameraControl.DestroyedScreenLeakExample | app/src/main/java/com/david/smartcamerax/CameraActivity.java:363-372 | smart on, destroy, then the pending bind runs and fails: analyzer 0 is held, open and never closed |
| CameraControl.CorrectedDestroyLeavesNoAnalyzer | app/src/main/java/com/david/smartcamerax/CameraActivity.java:550-564 | with a listener that binds nothing after `onDestroy`, a screen holding only its own analyzer has none open once destroyed, even after a late listener; while the screen lives the listener is the original one |
| CameraControl.SwitchFlipsFacing | app/src/main/java/com/david/smartcamerax/CameraActivity.java:242-257 | the switch flips the camera, forces the flash off on the front camera, and asks for one bind |
| CameraControl.SmartClickRebinds | app/src/main/java/com/david/smartcamerax/CameraActivity.java:279-284 | the smart button toggles smart mode and asks for one bind |
| CameraControl.FlashTogglesOnBackOnly | app/src/main/java/com/david/smartcamerax/CameraActivity.java:317-327 | on the front camera only a notice; on the back camera the flash toggles and a bound camera's torch follows it (through updateTorch at lines 524-541) |
| CameraScreen.CameraActivity.constructor | app/src/main/java/com/david/smartcamerax/CameraActivity.java:191-333 | the fields after `onCreate`, with one `startCamera()` pending |
| CameraScreen.CameraActivity.TakePhoto | app/src/main/java/com/david/smartcamerax/CameraActivity.java:461-477 | asks for a picture, or nothing before an ImageCapture exists |
| CameraScreen.CameraActivity.StartRecording | app/src/main/java/com/david/smartcamerax/CameraActivity.java:480-516 | refuses without recorder; otherwise starts a fresh current recording, asking for audio permission when missing |
| CameraScreen.CameraActivity.StopRecording | app/src/main/java/com/david/smartcamerax/CameraActivity.java:518-522 | stops the current recording if any |
| CameraScreen.CameraActivity.StopFilterPreview | app/src/main/java/com/david/smartcamerax/CameraActivity.java:594-600 | the loop stops, its tick is removed and the overlay hidden |
| CameraScreen.CameraActivity.StartFilterPreview | app/src/main/java/com/david/smartcamerax/CameraActivity.java:602-609 | without overlay nothing; otherwise the loop runs with one pending tick |
| CameraScreen.CameraActivity.UpdateTorch | app/src/main/java/com/david/smartcamerax/CameraActivity.java:524-541 | with a camera bound, forces the flag off on the front camera and sets that camera's torch |
| CameraScreen.CameraActivity.StartCamera | app/src/main/java/com/david/smartcamerax/CameraActivity.java:363-372 | one more provider listener pending |
| CameraScreen.CameraActivity.ReleaseAnalyzer | app/src/main/java/com/david/smartcamerax/CameraActivity.java:408-415 | with smart mode off, closes the held analyzer and clears the field |
| CameraScreen.CameraActivity.CreateAnalyzer | app/src/main/java/com/david/smartcamerax/CameraActivity.java:418-435 | with smart mode on, stores a fresh analyzer in the field |
| CameraScreen.CameraActivity.AttachUseCases | app/src/main/java/com/david/smartcamerax/CameraActivity.java:437-449 | a successful bind records the camera and its use cases |
| CameraScreen.CameraActivity.BindCameraUseCases | app/src/main/java/com/david/smartcamerax/CameraActivity.java:387-453 | the fields move as `bindCameraUseCases` |
| CameraScreen.CameraActivity.CloseAnalyzer | app/src/main/java/com/david/smartcamerax/CameraActivity.java:555-557 | `onDestroy` closes the held analyzer and keeps the field |
| CameraScreen.CameraActivity.OnTouchDown | app/src/main/java/com/david/smartcamerax/CameraActivity.java:290-295 | pressed, no long press yet, one timer armed for 350 ms |
| CameraScreen.CameraActivity.OnTouchUp | app/src/main/java/com/david/smartcamerax/CameraActivity.java:296-310 | timer removed, then photo or stop, then button up |
| CameraScreen.CameraActivity.StartRecordingRunnable | app/src/main/java/com/david/smartcamerax/CameraActivity.java:128-134 | the timer step |
| CameraScreen.CameraActivity.OnRecordingStart | app/src/main/java/com/david/smartcamerax/CameraActivity.java:501-503 | `isRecording` set, also after `onDestroy` |
| CameraScreen.CameraActivity.OnRecordingFinalize | app/src/main/java/com/david/smartcamerax/CameraActivity.java:504-513 | `isRecording` cleared, also after `onDestroy` |
| CameraScreen.CameraActivity.OnFilterClick | app/src/main/java/com/david/smartcamerax/CameraActivity.java:260-276 | the filter button step |
| CameraScreen.CameraActivity.FilterLoopTick | app/src/main/java/com/david/smartcamerax/CameraActivity.java:146-178 | the filter loop step |
| CameraScreen.CameraActivity.OnSwitchClick | app/src/main/java/com/david/smartcamerax/CameraActivity.java:242-257 | the switch button step |
| CameraScreen.CameraActivity.OnSmartClick | app/src/main/java/com/david/smartcamerax/CameraActivity.java:279-284 | the smart button step |
| CameraScreen.CameraActivity.OnFlashClick | app/src/main/java/com/david/smartcamerax/CameraActivity.java:317-327 | the flash button step |
| CameraScreen.CameraActivity.OnProviderReady | app/src/main/java/com/david/smartcamerax/CameraActivity.java:363-372 | the provider listener step, also when it runs after `onDestroy` |
| CameraScreen.CameraActivity.OnDestroy | app/src/main/java/com/david/smartcamerax/CameraActivity.java:550-564 | the `onDestroy` step |
| SavedMedia.StampHasNoS | app/src/main/java/com/david/smartcamerax/CameraActivity.java:463 | no character of a stamped photo name, or of the video name at line 485, folds to `s` |
| SavedMedia.NoSMeansNoMatch | app/src/main/java/com/david/smartcamerax/storage/ImageStore.java:67-68 | a name without an `s` never matches `%SmartCameraX%` |
| SavedMedia.PreQSelectionMissesAppMedia | app/src/main/java/com/david/smartcamerax/storage/ImageStore.java:67-68 | before SDK 29 the queries match `_display_name`, and no photo or video the camera saves is selected by ImageStore or the gallery |
| SavedMedia.CorrectedNamesAreSelected | app/src/main/java/com/david/smartcamerax/GalleryActivity.java:128-159 | names prefixed with `SmartCameraX_` are selected before SDK 29, and keep the stamp and the extension |
| SavedMedia.PostQSelectionFindsVideos | app/src/main/java/com/david/smartcamerax/GalleryActivity.java:154-156 | from SDK 29 on, the video query matches `relative_path` and every video under `Movies/SmartCameraX` is selected |

## Left out

- Camera frames, ML Kit recognizers, the recorder, `ProcessCameraProvider` and the content
  resolver are platform code. Their outcomes are parameters of events (provider ready, bind
  succeeded, recorder built, audio granted, task succeeded) or a resolver function.
- Threads, `Handler` posts, futures and `AtomicBoolean` become a sequential trace of events.
  The single-flight property is an invariant over traces, not a statement about concurrent
  interleavings.
- The gesture stream is assumed to alternate touch down with touch up or cancel.
- After `onDestroy` the model delivers only the callbacks it leaves registered: the pending
  provider-future listeners, which still bind (and in smart mode create an analyzer), and the
  recorder's Start and Finalize events. Touch, click, timer and filter-loop events are not
  delivered to a destroyed screen. Whether a late `bindToLifecycle` succeeds is a parameter, as
  for every bind.
- `utils/Filters.java` (float colour matrices drawn on a Canvas) and the frame grab in the filter
  loop are not part of this model. A tick only decides whether the loop goes on.
- Snackbars, icons, overlay layout (`adjustOverlayPositions`, `dpToPx`) and the 3-second hiding of
  the result text are left out.
- `onRequestPermissionsResult` and `utils/PermissionHelper.java` are platform permission code.
  The model starts after `onCreate` with camera permission granted.
- The executor shutdown in `onDestroy` and the back button are left out. The back button only
  stops a recording and navigates.
- `MainActivity.java`, `ImagePagerAdapter.java`, `analyzers/TextAnalyzer.java` and the build
  files are not part of this model.
- The call `ImageViewerActivity.start(..., list, videoFlags, position)` does not match the
  declared `start(Context, ArrayList<String>, int)`. Only the list building before it is
  modelled, in `Gallery.ViewerArgs`.
- Uris are kept as values. `Uri.toString()` text is not modelled, and `Uri.hashCode()` is a
  parameter of `MediaItems.HashCode`.
- Time stamps in file names come from the wall clock and are only characterised by their format.
- Exceptions thrown by `imageProxy.close()` and by the recognizers' `close()` are not events.
  The code catches them, and the flag reset and the second close happen in any case.
- A null listener passed to `SmartAnalyzer` is not modelled. The camera screen always passes
  one.
- CameraControl.FrontCameraNeverLit: the guarantee is about the selected camera, not the camera object the request goes to; the bound front camera can still be asked to light (see Findings).
- Analyzers.SmartAnalyzer.OnDetectorsComplete: does not model a completion for a frame other than
  the one held, since the listeners are attached per admitted frame.

## Findings

| source | as written | input that shows it | evidently intended | confidence | as-written member | corrected member |
|---|---|---|---|---|---|---|
| app/src/main/java/com/david/smartcamerax/storage/ImageStore.java:67-68 | before SDK 29, ImageStore and the gallery (GalleryActivity.java:128-129,158-159) select the app's media by DISPLAY_NAME LIKE `%SmartCameraX%`, but the camera names files `yyyyMMdd_HHmmss.jpg` and `.mp4` (CameraActivity.java:463,485) | SDK 28, a photo saved as `20240101_120000.jpg`: the gallery and `queryAppImages` never list it | names that contain the application's name, such as `SmartCameraX_20240101_120000.jpg`, so that the pre-29 selection finds them; the pre-29 projections also name `relative_path`, a column MediaStore lacks before SDK 29, so the rename alone may not make those queries return rows | high, not executed | SavedMedia.PreQSelectionMissesAppMedia | SavedMedia.CorrectedNamesAreSelected |
| app/src/main/java/com/david/smartcamerax/CameraActivity.java:418-435 | in smart mode each bind stores a new SmartAnalyzer in the field without closing the one it held; the field's comment (lines 186-187) says it is kept to close the analyzer and avoid leaks | smart on, bind, switch camera, bind: the first analyzer and its two recognizers are never closed | reuse the analyzer the field holds and create one only when it is null, as the comments at lines 383-384 and 423 say | high, not executed | CameraControl.RebindInSmartModeLeaksAnalyzer | CameraControl.CorrectedBindKeepsOneAnalyzer |
| app/src/main/java/com/david/smartcamerax/CameraActivity.java:363-372 | the listeners startCamera() adds to the provider future are never removed, and onDestroy (lines 550-564) does not stop them; a listener that runs after onDestroy binds anyway, and in smart mode creates a SmartAnalyzer (line 424) after onDestroy has already done its closing | smart on, then the screen is destroyed before the bind it asked for runs: that bind creates analyzer 0, fails on the destroyed lifecycle, and nothing closes analyzer 0 | a listener that returns without binding once the screen is destroyed, matching the cleanup the comment on onDestroy (lines 543-548) promises | medium, not executed | CameraControl.BindAfterDestroyLeaksAnalyzer | CameraControl.CorrectedDestroyLeavesNoAnalyzer |
| app/src/main/java/com/david/smartcamerax/CameraActivity.java:524-541 | updateTorch keeps the torch off only when the selected camera is the front one, but asks currentCamera, the camera bound last, to light | back camera bound, switch to front and bind, switch back to back, then flash click before that bind completes: the front camera is asked to enable its torch | ask for the torch only of a back camera, as the comment on the front-camera guard says | medium, not executed | CameraControl.TorchRequestedOfFrontCamera | CameraControl.CorrectedTorchNeverLightsFront |
