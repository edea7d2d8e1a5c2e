# Is It Snappy: a verified model of the app's logic

"Is It Snappy" is an iOS app for measuring latency: it records high-frame-rate
video, and the user marks an input frame and an output frame to get the time
between them. Most of the app is camera, photo-library and UIKit glue. This
project models the parts of it that are plain sequential logic, in Dafny, and
proves what they promise:

- **Mark store** (`mark_database.dfy`, module `MarkStore`). A mark has a name,
  an input time and an output time. Marks are kept in a dictionary keyed by a
  video identifier. Each mark maps to a JSON object and back. Saving builds a
  `{"marks": {...}}` tree. Loading reads that tree back and silently drops the
  entries that do not decode. JSON is a datatype. The file and the JSON text
  are not modelled.
- **Video manager** (`video_manager.dfy`, module `Videos`). Videos are sorted
  newest first, with undated videos at the front. The dated videos are then
  bucketed into day groups: each video is compared with the first date of the
  current group. Observers are kept in a token-keyed table. Assigning the
  video list recomputes the groups and then calls every observer. "Same day"
  compares only the year and the day of the month, as in the source, so two
  adjacent videos on the 5th of January and the 5th of February of one year
  share a group.
- **Seek state machine** (`mark_view_controller.dfy`, module `MarkView`).
  Scrubbing on the mark screen keeps at most one player seek in flight. A pan
  during a seek that already has a seek parked behind it replaces the parked
  target with its own, and the completion handler issues the parked seek. A
  pan during a seek with nothing parked parks the target already in flight
  and drops its own; see "## Findings". The corrected rule parks the pan's
  own target. Times are integer ticks. A player seek is an entry in a log of
  issued seeks.
- **Capture helpers** (`av_util.dfy`, module `AVUtil`). These are the mappings
  between interface, device and capture orientations, the highest frame rate
  of a capture format, and the choice of the best capture format.
- **Hit test** (`hit_button.dfy`, module `HitTest`). A button accepts a touch
  that falls in its bounds grown by per-side insets, with the edges included.

`wrappers.dfy` holds the `Option` type, the counterpart of Swift's optionals.

## Model

| member | source | states |
|---|---|---|
| MarkStore.Encode | src/MarkDatabase.swift:8-30 | an encoded mark is an object with exactly the keys `name`, `input`, `output`, and decoding it gives the same mark back |
| MarkStore.Decode | src/MarkDatabase.swift:16-30 | no contract of its own; its behaviour is stated by DecodeSucceedsIffWellFormed, DecodeRejects and DecodeIgnoresOtherKeys, and by the round trip in Encode |
| MarkStore.DecodeSucceedsIffWellFormed | src/MarkDatabase.swift:16-30 | decoding succeeds exactly when the record is an object with a string `name` and numeric `input` and `output`, and the result carries those three values |
| MarkStore.DecodeRejects | src/MarkDatabase.swift:16-29 | a non-object, or an object missing any of the three fields or holding one with the wrong kind of value, decodes to nil |
| MarkStore.DecodeIgnoresOtherKeys | src/MarkDatabase.swift:18-23 | adding keys other than the three fields never changes the result of decoding |
| MarkStore.EncodeAll | src/MarkDatabase.swift:49-52 | the saved `marks` object has exactly the store's keys, and decoding its entries gives back every mark |
| MarkStore.SaveTree | src/MarkDatabase.swift:48-83 | the saved root is an object whose only key is `marks`, and loading it gives back exactly the saved marks |
| MarkStore.DecodeAll | src/MarkDatabase.swift:77-83 | an entry of the `marks` object is kept exactly when it is an object with a string `name` and numeric `input` and `output`, and a kept entry holds those three values |
| MarkStore.LoadTreeEmptyCases | src/MarkDatabase.swift:65-91 | loading gives an empty map when there is no tree, when the root is not an object, or when `marks` is missing or not an object |
| MarkStore.LoadTreeFilters | src/MarkDatabase.swift:73-83 | loading keeps every well-formed entry, decoded and unchanged, drops every malformed one, and ignores other root keys |
| MarkStore.DecodeEntries | src/MarkDatabase.swift:77-83 | the decoding loop over the `marks` object yields exactly the decodable entries, decoded |
| MarkStore.Load | src/MarkDatabase.swift:65-92 | load yields the decodable entries of the `marks` object of the stored tree, and nothing in every failure case |
| MarkStore.MarkDatabase.constructor | src/MarkDatabase.swift:36-38 | a new database holds what load reads |
| MarkStore.MarkDatabase.Set | src/MarkDatabase.swift:40-42 | after set, the key maps to the new mark and every other key keeps its entry |
| MarkStore.MarkDatabase.Get | src/MarkDatabase.swift:44-46 | get yields a mark exactly when the key is present, and then the stored mark |
| MarkStore.MarkDatabase.Save | src/MarkDatabase.swift:48-56 | the tree-building loop of save produces `{"marks": {...}}` with every stored mark encoded under its key |
| Videos.SortsBefore | src/VideoManager.swift:42-54 | no contract of its own; the comparator's order is stated by SortNewestFirst and NewestFirstOrder, and its transitivity of "not before" by NotBeforeTransitive |
| Videos.SortNewestFirst | src/VideoManager.swift:42-54 | the sorted list is a permutation of the videos in which no video is preceded by one the comparator puts after it |
| Videos.NewestFirstOrder | src/VideoManager.swift:42-54 | in the sorted list every undated video comes before every dated one, and dated videos come in non-increasing date order |
| Videos.OnSameDay | src/VideoManager.swift:62-72 | no contract of its own; OnSameDayIgnoresMonth states what it compares and that it is an equivalence, and GroupVideosCorrect states how the grouping uses it |
| Videos.OnSameDayIgnoresMonth | src/VideoManager.swift:62-72 | dates with equal year and equal day of the month are on the same day whatever their months, and the relation is an equivalence |
| Videos.ScanKeepsInvariant | src/VideoManager.swift:81-91 | after each iteration of the grouping loop, the current group exists once a video was grouped, the groups so far hold exactly the dated videos seen, and they are well grouped |
| Videos.GroupVideosCorrect | src/VideoManager.swift:81-94 | the groups' videos, concatenated, are exactly the dated videos in sorted order, each once; no group is empty; each group's date is its first video's date; every video is on the same day as its group's date; and each group's date is not on the same day as the previous group's |
| Videos.UndatedInNoGroup | src/VideoManager.swift:82-84 | a video without a creation date is in no group |
| Videos.VideoManager.constructor | src/VideoManager.swift:21-38 | a new manager has no observers, token counter 0, and no videos or groups |
| Videos.VideoManager.Flush | src/VideoManager.swift:74-79 | flush appends the current group, if there is one, and nothing else |
| Videos.VideoManager.RecalculateGroups | src/VideoManager.swift:40-95 | the grouping loop leaves in `groupedVideos` the day groups of the videos sorted newest first |
| Videos.VideoManager.SetAllVideos | src/VideoManager.swift:24-31 | assigning the videos recomputes the groups first, then calls every registered observer exactly once, and each call sees the new groups |
| Videos.VideoManager.Register | src/VideoManager.swift:110-115 | register returns a token greater than every token already registered, equal to the incremented counter, and maps it to the observer |
| Videos.VideoManager.Unregister | src/VideoManager.swift:117-120 | unregister requires the token to be registered and removes only its entry |
| MarkView.Clamp | src/MarkViewController.swift:167-170 | the seek target lies in `[0, duration]`, and equals the requested time when that is already in range |
| MarkView.OnGesture | src/MarkViewController.swift:172-181 | no contract of its own; its arms are stated by GestureIgnoredUntilLoaded, GestureFromIdleSeeks and GestureWhileSeekingParks, and its seek accounting by TransitionsKeepOneInFlight |
| MarkView.GestureIgnoredUntilLoaded | src/MarkViewController.swift:172-174 | a gesture in `loading` or `failed` changes nothing and issues no seek |
| MarkView.GestureFromIdleSeeks | src/MarkViewController.swift:175-176 | a gesture when idle issues one seek, to its target, and moves to `seeking(target)` |
| MarkView.GestureWhileSeekingParks | src/MarkViewController.swift:177-180 | a gesture during a seek issues nothing: from `seeking(t)` it moves to `seekingWithPendingSeek(t)` with the in-flight `t`, and with a seek pending it replaces the pending target by its own |
| MarkView.CompletionAdvances | src/MarkViewController.swift:201-208 | completion takes `seeking` to idle and `seekingWithPendingSeek(p)` to `seeking(p)` with a new seek to `p` |
| MarkView.OnSeekCompleted | src/MarkViewController.swift:201-208 | no contract of its own; its two arms are stated by CompletionAdvances, and NoUnexpectedTransition shows the fatal arm is never reached |
| MarkView.TransitionsKeepOneInFlight | src/MarkViewController.swift:172-208 | each transition issues a seek exactly when the state starts waiting for one, so the number of outstanding seeks always equals what the state says |
| MarkView.NoUnexpectedTransition | src/MarkViewController.swift:184-211 | from a loaded screen, no sequence of pans and seek completions reaches the fatal error, at most one seek is ever in flight, and every seek target lies in `[0, duration]` |
| MarkView.AsWrittenLosesLatestPan | src/MarkViewController.swift:177-178 | as written, pans to 10 and then 20, followed by two completions, leave the player idle after seeking to 10 twice |
| MarkView.CorrectedSettlesOnLatest | src/MarkViewController.swift:177-178 | with the corrected parking rule, the parked or running seek is always the latest pan target, so when idle the last seek went to the latest target |
| MarkView.CorrectedReachesLatestPan | src/MarkViewController.swift:177-178 | with the corrected rule, the same pans and completions end with seeks to 10 and then 20 |
| MarkView.MarkViewController.constructor | src/MarkViewController.swift:13 | a new screen is `loading`, with no model, no player, zero times and no seeks, and follows the given parking rule |
| MarkView.MarkViewController.SetModel | src/MarkViewController.swift:31-33 | the model may be set only when none is set, and is then set |
| MarkView.MarkViewController.AssetLoaded | src/MarkViewController.swift:99-103 | when the asset arrives, the player exists and the state becomes idle |
| MarkView.MarkViewController.Seek | src/MarkViewController.swift:184-193 | with a player, seek moves to `seeking(target)` and issues exactly one player seek, to the target; without one nothing changes |
| MarkView.MarkViewController.HandleGesture | src/MarkViewController.swift:139-181 | without a player nothing happens; otherwise the gesture start time is updated on `began`, the target is clamped, and the state and the seeks issued follow the gesture transition of the screen's parking rule, as written or corrected; the screen's invariant is kept |
| MarkView.MarkViewController.SeekCompleted | src/MarkViewController.swift:194-211 | completion requires that the seek finished and that a seek is outstanding; the state is then always a seeking one, so the fatal error is never reached; the completion is counted and the completion transition followed |
| MarkView.MarkViewController.HandleMarkStartTime | src/MarkViewController.swift:214-218 | the marked start time becomes the player's current time |
| AVUtil.ToInterfaceOrientation | src/AVUtil.swift:5-15 | a capture orientation never maps to the unknown interface orientation |
| AVUtil.FromInterfaceOrientation | src/AVUtil.swift:17-25 | no contract of its own; InterfaceRoundTrip states that it inverts ToInterfaceOrientation and maps the unknown orientation to portrait |
| AVUtil.InterfaceRoundTrip | src/AVUtil.swift:5-25 | converting a capture orientation to an interface orientation and back gives it back, the other direction is the identity on the four named cases, and an unknown interface orientation maps to portrait |
| AVUtil.DeviceMapping | src/AVUtil.swift:27-36 | device landscape left and right map to capture landscape right and left, portrait and upside-down map to themselves, exactly face up, face down and unknown give nil, and the mapping is one-to-one where defined |
| AVUtil.FromDeviceOrientation | src/AVUtil.swift:27-36 | no contract of its own; DeviceMapping states each case, exactly when it gives nil, and that it is one-to-one |
| AVUtil.MaxFrameRateIsMaximum | src/AVUtil.swift:40-48 | the running maximum is at least 0 and at least every range's maximum rate, and is 0 or one of those rates |
| AVUtil.MaxSupportedFrameRate | src/AVUtil.swift:40-48 | the loop computes the running maximum: at least 0, at least every range's maximum rate, and 0 or one of them |
| AVUtil.Priority | src/AVUtil.swift:55-61 | no contract of its own; PriorityOrder states how it orders formats by whole frame rate and then by full range |
| AVUtil.PriorityOrder | src/AVUtil.swift:55-61 | a larger whole frame rate always has the higher priority, whatever the range; at an equal whole rate the full-range format has the higher priority exactly when the other is not full range |
| AVUtil.InsertIntoPrefix | src/AVUtil.swift:62 | one insertion step extends the priority-ordered prefix by one element, the new prefix is a permutation of the old one, and everything after it is unchanged |
| AVUtil.SortByPriority | src/AVUtil.swift:62 | the formats end in non-increasing priority order, as a permutation of the original |
| AVUtil.CaptureDevice.SetBestFormat | src/AVUtil.swift:52-75 | the format considered exists exactly when there are formats, is one of them, and has maximal priority; the active format becomes it only if its rate exceeds 60 and the device locks, and an empty list changes nothing |
| HitTest.PointInside | src/UIHitButton.swift:7-13 | no contract of its own; ZeroInsetsIsBounds, EdgesInclusive, SplitsIntoAxes and GrowingInsetsKeepsHits state its behaviour, and NewHitButton that of a new button |
| HitTest.NewHitButton | src/UIHitButton.swift:5-12 | a new button's `hitInsets` are zero, so it accepts exactly the points of its closed bounds |
| HitTest.ZeroInsetsIsBounds | src/UIHitButton.swift:8-12 | with zero insets a point is inside exactly when it lies in the closed bounds |
| HitTest.EdgesInclusive | src/UIHitButton.swift:9-12 | points exactly at `minX - left`, `maxX + right`, `minY - top` or `maxY + bottom` are accepted |
| HitTest.SplitsIntoAxes | src/UIHitButton.swift:8-12 | the test is an x-only test and a y-only test together, so a point outside the x range is rejected whatever its y, and the same for y |
| HitTest.GrowingInsetsKeepsHits | src/UIHitButton.swift:9-12 | growing any inset never turns an accepted point into a rejected one |

## Findings

| source | as written | input that shows it | evidently intended | confidence | as-written member | corrected member |
|---|---|---|---|---|---|---|
| src/MarkViewController.swift:177-178 | a pan during `seeking(t)` parks `t`, the seek already in flight, and drops its own target | duration 100, idle: pan to 10, pan to 20, then two seek completions; the player seeks to 10 twice and ends idle at 10 | park the new pan's target, so the last pan is the last seek | high; not executed | MarkView.AsWrittenLosesLatestPan | MarkView.CorrectedSettlesOnLatest |

`OnGesture` is the transition as written. `OnGestureCorrected` differs only
in the `seeking(t)` case, where it parks the gesture's own target.
The screen `MarkView.MarkViewController` is built with either rule and
`HandleGesture` follows it. The runs in `MarkView.Run` take either rule too.
Both rules keep at most one seek in flight. Only the corrected one always ends
on the latest pan.

## Left out

- File reading and writing, the database location and the JSON text. These are
  foreign calls (`FileManager`, `JSONSerialization`). `MarkStore.Load` takes the
  parsed tree, or `None` when the file is missing or is not JSON. `Save` returns
  the tree it would write.
- JSON numbers and `Double` are exact reals. They are only stored and compared.
  Not-a-number and infinite values, which would make the serializer throw, are
  not modelled. The platform bridges a JSON boolean to a number that `as? Double`
  also accepts. The model accepts only JSON numbers for `input` and `output`.
- Dictionary keys (video identifiers, JSON object keys) compare by code points
  in the model. Swift's `String` keys compare by Unicode canonical equivalence,
  so `"é"` and `"e\u{301}"` are one key in the source and two in the model.
- Dictionary iteration order in `save`, `load` and the observer calls is chosen
  arbitrarily. The source does not specify it either.
- Videos.SortNewestFirst: the library sort promises no order among videos it
  does not separate (equal dates, or no dates). The model keeps their original
  order, which is one of the orders the library may produce.
- The calendar and the current time zone are a function parameter from dates to
  (year, month, day).
- Fetching videos from the photo library is platform calls with main-queue
  dispatch: `getAlbum`, `getExistingVideos`, `photoLibraryDidChange` and the
  fetch in `init`. The fetched list is the parameter of `SetAllVideos`.
- The main-thread precondition of `recalculateGroups` and all queue hops are
  concurrency, which is not modelled.
- What observers do when called, including calls back into the manager, is not
  modelled. Token overflow of Swift's `Int` is not modelled.
- The scrub curve `applyCurve` uses `pow` on floating point. The conversion of
  seconds to `CMTime` and the frame label in `updateLabel` (`formatTime`,
  `nominalFrameRate`) are left out too. The pan offset is an abstract input in
  ticks.
- Asset loading and composition in `setModel` are Photos and AVFoundation work
  with asynchronous callbacks. Its effect is the `AssetLoaded` event.
- Invalid or indefinite item durations are not modelled. The duration is a
  non-negative tick count.
- The `failed` state is never entered by the source, so the screen's invariant
  excludes it. The `weak self` guards are not modelled.
- `lockForConfiguration` throwing is a boolean parameter of `SetBestFormat`. The
  `@unknown default` of the orientation getter covers enum cases added in later
  platform versions; the model's orientation types are closed.
- Frame rates are exact reals. Overflow of Swift's `Int(rate)` is not modelled.
- CGFloat coordinates are exact reals. The touch event argument of
  `point(inside:with:)` is ignored, as in the source.
- The camera controllers (`CameraViewController.swift`, `CaptureViewController.swift`)
  are not part of this model. They are session setup, key-value observation,
  recording and exposure control, and their orientation and format helpers
  duplicate `AVUtil.swift`.
- `ScrubberViewController.swift`, the list, root, about and help screens, the
  preview and player views, `SwiftUtil.swift` and `Config.swift` are not part of
  this model. They are UI and platform glue.
- The mark-database calls made by the capture list (`delete`, lookup by local
  identifier, display label) are not in `MarkDatabase.swift` and are not
  modelled.
