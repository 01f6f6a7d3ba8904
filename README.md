# Face matching and session engine of MMM-Facial-Recognition

A Dafny model of the decision logic of the MagicMirror facial-recognition
module: the Python recogniser that normalises detected face regions, measures
embedding distances against a gallery of enrolled images, and turns noisy
per-frame results into debounced `login` / `logout` events, and the Node
helper that starts the recogniser once and forwards its events to the front
end as socket notifications.

| file | module | models |
|---|---|---|
| channel.dfy | `Channel` | JSON values, the two-field record `MMConfig.to_node` prints, decimal rendering of counts |
| detector.dfy | `FaceDetection` | the scale / pad / clip loop of `FaceDetector.detect_faces` |
| matcher.dfy | `FaceMatching` | `face_match`, the gallery search of `run_camera`, `handle_keys`, the login derived from an image path |
| session.dfy | `LoggedUser` | the state machine of `VideoFaceMatcherLoggedUser` as a class, specified by the function `Step` |
| config.dfy | `Config` | `MMConfig._get`, its getters and `to_node` |
| node_helper.dfy | `NodeHelper` | the message dispatch and the `pythonStarted` latch of `node_helper.js` |
| integration.dfy | `Integration` | what the Python records become at the helper, and the front end's configuration notification |

State the source updates in place is a class whose methods are proved
against a specification function (`LoggedUserMatcher.RenderMatchResults`
against `Step`, `Helper.SocketNotificationReceived` against `Receive`,
`Helper.OnPythonMessage` against `OnMessage`); the properties are lemmas
about those functions. Loops of the source (`face_match`, the gallery
search, the region loop) are methods with loop invariants. The clock
(`time.time()`) is the parameter `now`; the detector's boxes, embeddings and
the key code are inputs; emitted messages and notifications are appended to
sequences.

The model follows the code as written: the match threshold is 0.8
(python/VideoFaceMatcher.py:32), the state machine takes one matched image,
a length mismatch in `face_match` yields `False`, and the login debounce
needs three consecutive matching frames from a fresh `last_match`. The comment at python/VideoFaceMatcherLoggedUser.py:41
says "twice in a row", but the counter starts at 0 on the first frame of a
new user and reaches 2 only on the third (`LoggedUser.ThirdMatchingFrameLogsIn`).

Two integration mismatches between the parts are proved as they are written:
the front end sends its configuration as `"CONFIG"` (MMM-Facial-Recognition.js:12)
while the helper waits for `"FACIAL_RECOGNITION_CONFIG"` (node_helper.js:76),
so the front end as written never starts Python
(`Integration.FrontEndConfigNeverStartsPython`); and Python sends the
login's score as `confidence` (python/VideoFaceMatcherLoggedUser.py:45) while
the helper forwards `distance` (node_helper.js:41), which is therefore
always `undefined` (`Integration.LoginArrivesWithoutDistance`).

## Model

| member | source | states |
|---|---|---|
| Channel.ToJson | python/MMConfig.py:21-28 | the printed object has exactly the two fields `messageType` and `message`, holding the record's type and message |
| Channel.ToJsonRoundTrip | python/MMConfig.py:21-28 | reading the printed object back yields the same record |
| FaceDetection.Trunc | python/FaceDetector.py:47-54 | `int()` truncates toward zero: the result is within one of its argument, on the side of zero |
| FaceDetection.NormaliseBox | python/FaceDetector.py:46-60 | every region a box becomes has `left, top >= 0`, `right <= width`, `bottom <= height` |
| FaceDetection.DetectFaces | python/FaceDetector.py:38-62 | one region per detector box, in the same order (none for no boxes), each the normalised box, all inside the frame; the log reports the number of regions |
| FaceDetection.PaddingIsIntegerPercent | python/FaceDetector.py:53-54 | for a non-negative size the padding is `size * 15 / 100` in integer division, between 0 and the size |
| FaceDetection.RegionContainsScaledBox | python/FaceDetector.py:53-58 | a scaled box inside the frame lies inside its region; positive width (height) gives `left < right` (`top < bottom`) |
| FaceDetection.FoundFacesMessageReportsCount | python/FaceDetector.py:62 | the number written in "Found N face(s)" reads back as N |
| FaceMatching.SumSquaredDiff | python/VideoFaceMatcher.py:128-131 | the sum of squared differences is never negative |
| FaceMatching.FaceMatch | python/VideoFaceMatcher.py:124-134 | `False` exactly on a length mismatch, logging "length mismatch in face_match"; otherwise the sum of squared differences, non-negative, and a log of it |
| FaceMatching.DistanceToSelfIsZero | python/VideoFaceMatcher.py:128-134 | an embedding is at distance 0 from itself |
| FaceMatching.DistanceIsSymmetric | python/VideoFaceMatcher.py:128-131 | `face_match(a, b) == face_match(b, a)` for equal lengths |
| FaceMatching.SelectMatch | python/VideoFaceMatcher.py:186-201 | the minimum is at most 100 and at most every compared distance; the index is -1 exactly when no distance is below 100, otherwise the first index reaching the minimum; a match exactly when the minimum is at most 0.8, and then the index is valid; one log per comparison and the PASS/FAIL verdict naming the matched image |
| FaceMatching.MismatchedEntryPassesThreshold | python/VideoFaceMatcher.py:125-127 | as written, a gallery entry of the wrong length makes the minimum 0, a match, at or before that entry |
| FaceMatching.SelectMatchChecked | python/VideoFaceMatcher.py:186-201 | the search with mismatched entries skipped: same minimum/first-index laws, and a match is an entry of the right length within 0.8 |
| FaceMatching.CheckedSearchFindsExactEntry | python/VideoFaceMatcher.py:186-195 | with mismatches skipped, a gallery holding the live embedding yields distance 0 no later than that entry, on an entry of the right length |
| FaceMatching.HandleKeysStopsOnlyOnQ | python/VideoFaceMatcher.py:140-145 | `handle_keys` returns False exactly when the key code's low byte is 113 (`q`) or 81 (`Q`), whatever the higher bits |
| FaceMatching.LastSlashEnd | python/VideoFaceMatcher.py:47 | the split point `os.path` uses: just past the last `/`, with no `/` after it |
| FaceMatching.UserLoginIsParentDirectory | python/VideoFaceMatcher.py:44-47 | for `<root>/<user>/<file>` the derived login is `<user>`, the parent directory's name |
| LoggedUser.LoggedUserMatcher.constructor | python/VideoFaceMatcherLoggedUser.py:10-15 | no user, timestamp 0, no last match, counter 0, nothing sent |
| LoggedUser.LoggedUserMatcher.RenderMatchResults | python/VideoFaceMatcherLoggedUser.py:19-60 | the four fields become `Step`'s new session and the events sent are appended, keeping the counter in 0..2 |
| LoggedUser.CounterStaysInRange | python/VideoFaceMatcherLoggedUser.py:34-40 | `same_user_detected_in_row` stays within 0..2 across a frame |
| LoggedUser.RunKeepsCounterInRange | python/VideoFaceMatcherLoggedUser.py:34-40 | and across any sequence of frames |
| LoggedUser.FacelessFrame | python/VideoFaceMatcherLoggedUser.py:21-28 | no faces: one `logout` for the current identity, counter 0 and no user, when someone is set and the logout delay has passed; otherwise nothing changes; `last_match` and the timestamp are never touched |
| LoggedUser.FacelessRunLogsOutAtMostOnce | python/VideoFaceMatcherLoggedUser.py:21-28 | any run of face-less frames sends at most one event, a `logout` of the identity at its start, and none when nobody was logged in |
| LoggedUser.MatchedFrameRecordsMatch | python/VideoFaceMatcherLoggedUser.py:31-47 | a matched frame always sets the timestamp to `now` and `last_match` to the matched user |
| LoggedUser.LoginNeedsDebounce | python/VideoFaceMatcherLoggedUser.py:35-45 | a matched frame sends something only when the user differs from the current one, was the last match and the counter was already 1 or 2; it then sends exactly one `login` for that user, who becomes current with the counter at 2 |
| LoggedUser.NoLoginForCurrentUser | python/VideoFaceMatcherLoggedUser.py:42-45 | matches of the current user send no `login` and keep the user |
| LoggedUser.ThirdMatchingFrameLogsIn | python/VideoFaceMatcherLoggedUser.py:35-47 | from a last match other than A, the first and second A-frames send nothing and the third sends exactly one `login` for A, who becomes current |
| LoggedUser.UnmatchedFrame | python/VideoFaceMatcherLoggedUser.py:48-58 | faces but no match: switch to unknown (user 0), timestamp `now`, one unknown `login`, exactly when the identity is not already unknown and more than 5 s passed; otherwise nothing changes; `last_match` and the counter are kept |
| LoggedUser.UnmatchedRunAnnouncesUnknownAtMostOnce | python/VideoFaceMatcherLoggedUser.py:51-58 | any run of unmatched frames with faces sends at most one unknown `login`, none when already unknown |
| LoggedUser.FreshUnmatchedFaceRaisesAsWritten | python/VideoFaceMatcherLoggedUser.py:51 | as written (timestamp initialised to a `gmtime` struct at line 13), the first unmatched frame with faces raises `TypeError` |
| LoggedUser.FreshUnmatchedFaceAnnouncesUnknown | python/VideoFaceMatcherLoggedUser.py:51-58 | with the timestamp initialised to 0, that frame switches to unknown and sends one unknown `login` |
| Config.MissingKeyMessageNamesKey | python/MMConfig.py:79 | the missing-key `status` text names exactly the key asked for |
| Config.MMConfig.constructor | python/MMConfig.py:7 | the configuration is the given object and nothing is printed yet |
| Config.MMConfig.ToNode | python/MMConfig.py:21-28 | exactly one record with the given type and message is printed |
| Config.MMConfig.Get | python/MMConfig.py:75-80 | a present key yields its value and prints nothing; an absent key yields the default and prints exactly one `status` naming the key; the configuration never changes |
| Config.MMConfig.GetTrainingFile | python/MMConfig.py:31-32 | reads `trainingFile`, default `None` |
| Config.MMConfig.GetInterval | python/MMConfig.py:35-36 | reads `interval`, default 1 |
| Config.MMConfig.GetLogoutDelay | python/MMConfig.py:39-40 | reads `logoutDelay`, default `None` |
| Config.MMConfig.GetUsers | python/MMConfig.py:43-44 | reads `users`, default `None` |
| Config.MMConfig.GetDefaultClass | python/MMConfig.py:47-48 | reads `defaultClass`, default `None` |
| Config.MMConfig.GetEveryoneClass | python/MMConfig.py:51-52 | reads `everyoneClass`, default `None` |
| Config.MMConfig.GetWelcomeMessage | python/MMConfig.py:55-56 | reads `welcomeMessage`, default `None` |
| Config.MMConfig.GetUseUsbCam | python/MMConfig.py:59-60 | reads `useUSBCam`, default `None` |
| Config.MMConfig.GetThreshold | python/MMConfig.py:63-64 | reads `threshold`, default `None` |
| Config.MMConfig.GetMotionStopDelay | python/MMConfig.py:67-68 | reads `motionStopDelay`, default `None` |
| Config.MMConfig.GetMotionDetectionThreshold | python/MMConfig.py:71-72 | reads `motionDetectionThreshold`, default `None` |
| NodeHelper.Helper.constructor | node_helper.js:14 | no configuration, Python not started, nothing launched or sent |
| NodeHelper.Helper.PythonStart | node_helper.js:22-28 | one launch, given the current configuration |
| NodeHelper.Helper.SocketNotificationReceived | node_helper.js:75-83 | the new state is `Receive` of the old one; nothing is sent |
| NodeHelper.Helper.OnPythonMessage | node_helper.js:30-66 | the handler throws exactly when `OnMessage` does, otherwise appends its notifications |
| NodeHelper.LoginNotifiesOnce | node_helper.js:36-43 | a `login` message sends exactly one `user` notification with the login action, the message's `user` and `distance` |
| NodeHelper.LogoutNotifiesOnce | node_helper.js:44-50 | a `logout` message sends exactly one `user` notification with the logout action and the message's `user` |
| NodeHelper.NotifiesOnlyForUserEvents | node_helper.js:31-65 | at most one notification per message, named `user`, and only for `login`, `logout`, or `matchResults` with `config.debug` truthy; `log`, other types and a missing `messageType` send nothing |
| NodeHelper.MatchResultsNeedDebug | node_helper.js:51-59 | a `matchResults` message is forwarded exactly when `config.debug` is truthy |
| NodeHelper.FirstConfigIsTheOneLaunched | node_helper.js:76-81 | before Python has started, the first `FACIAL_RECOGNITION_CONFIG` launches it exactly once, with that notification's payload, whatever follows |
| NodeHelper.PythonStartsAtMostOnce | node_helper.js:76-81 | over any notifications, Python is launched at most once and `pythonStarted` records whether it was |
| NodeHelper.ConfigAlwaysReplaced | node_helper.js:76-77 | every `FACIAL_RECOGNITION_CONFIG` replaces the configuration, even after start; other names change nothing |
| Integration.LoginArrivesWithoutDistance | node_helper.js:36-43 | a Python user login arrives as one login notification for that user with `distance` undefined |
| Integration.UnknownLoginArrivesAsUserZero | python/VideoFaceMatcherLoggedUser.py:56-58 | the unknown identity arrives as a login of user 0 |
| Integration.LogoutArrives | node_helper.js:44-50 | a Python logout arrives as one logout notification naming the identity logged out |
| Integration.FrontEndConfigNeverStartsPython | MMM-Facial-Recognition.js:12 | any number of the front end's `CONFIG` notifications leave the helper unchanged: Python never starts |

## Findings

| source | as written | input that shows it | evidently intended | confidence | as-written member | corrected member |
|---|---|---|---|---|---|---|
| python/VideoFaceMatcherLoggedUser.py:13 | `login_timestamp` starts as `time.gmtime(0)`, a struct, which line 51 subtracts from a float | a fresh matcher whose first frame has a face and no match | a numeric timestamp of 0 | high; not executed | LoggedUser.FreshUnmatchedFaceRaisesAsWritten | LoggedUser.FreshUnmatchedFaceAnnouncesUnknown |
| python/VideoFaceMatcher.py:127 | `face_match` returns `False` on a length mismatch, and the search at line 191 orders `False` as 0 | gallery `[[0.0]]`, live embedding `[]`: reported as a match at distance 0 | a mismatched entry is no match | high; not executed | FaceMatching.MismatchedEntryPassesThreshold | FaceMatching.SelectMatchChecked |

The session model (`LoggedUser`) starts the timestamp at 0, the corrected
behaviour. `SelectMatch` keeps the search as written; `SelectMatchChecked`
is the search with mismatched entries skipped.

## Left out

- Camera and accelerator lifecycle (`VideoFaceMatcher.initialize`, `run_inference`, `__init__`'s directory listing, the frame reading and window handling of `run_camera`, python/Webcam.py, `MMConfig.get_camera`): device I/O behind external libraries. Embeddings, the image list and the detector's boxes are inputs instead.
- `whiten_image` and `preprocess_image`: numpy floating-point numerics and OpenCV resizing.
- The grey conversion, resizing and `detectMultiScale` call of `detect_faces`, and the lazy creation of the classifier with its log line: external detector.
- Floating point: distances, embeddings, the scale factor and timestamps are exact reals; float rounding is not modelled.
- FaceMatching.FaceMatch: the log record carries the total difference as a number; the text "Total Difference is: " and Python's rendering of a float are not modelled.
- Rendering: `overlay_on_image`, the base class's `render_match_results`, and python/VideoFaceMatcherShowInWindow.py, whose only logic, `handle_keys`, is the same as the one modelled.
- python/MatchedFace.py: a rounded-distance value object the state machine does not use.
- The entry points python/FacialRecognition.py and python/FacialRecognition.test.py: working-directory change, signal handler and catch-all reporting.
- JSON text, stdout flushing, `console.log`, the `PythonShell` process and `pyShell.end`, and the socket transport: printed records, launches and notifications are appended to sequences. `FaceDetector.send_to_node`'s default console printer is likewise modelled by returning the record.
- The `vid_image` argument of `render_match_results`, which the state machine does not read.
- `load_validated_image_list`'s glob and its loop, which discards the derived login: only the derivation of one path is modelled.
- `MMConfig.CONFIG_DATA` is taken to be a JSON object, as the host always sends one.
- Property reads in the helper are modelled for the keys it reads and `length`; prototype properties, numeric indexes and `NaN` are not.
- NodeHelper.Helper.OnPythonMessage: an exception thrown by the handler is reported as a flag; what Node does with it afterwards is not modelled.
- NodeHelper.Helper.OnPythonMessage: the text conversions in the `console.log` templates (node_helper.js:34-64) are assumed not to throw; objects with an own `toString`/`valueOf` key, which make those conversions throw, are not modelled (the recogniser never sends such keys).
