# Posture monitoring: verified model of the session and message logic

The posture monitoring system has three programs. A mobile client takes camera
frames at most every 500 ms, detects body landmarks and sends them as a flat
list `[x0, y0, x1, y1, ...]`. A backend pairs the list into coordinates,
classifies posture with a threshold rule and replies; it also broadcasts the
result to browser dashboards. A dashboard keeps seconds per posture.

This Dafny project models the deterministic logic inside those programs:

- `FlatLayout` (flat_layout.dfy): the flat landmark layout, the writer
  (`Flattened`) and the reader (`Pairs`), and the round trips between them.
- `Analyzer` (analyzer.dfy): the capture client's 500 ms admission gate on
  `lastAnalyzedTimestamp` and the array flattening.
- `PostureData` (posture_data.dfy): `convertToLandmarks`, the `toJson` text of
  a pose message, `PostureSession` and its zeroed totals, and `PostureType`
  display names.
- `Mobile` (mobile.dfy): the activity's start/stop toggle over `isMonitoring`
  and `currentSession`, the forwarding gate, the label mapping, and
  `updateSessionStats`.
- `Backend` (backend.dfy): the coordinate-pairing loop, the two error replies,
  the 25-pair gate, the decision rule, the reply and broadcast, and the
  connection manager's socket lists.
- `Dashboard` (dashboard.dfy): the tracker state (`postureTimes`,
  `lastPosture`, `postureStartTime`), the message filter and the minute/second
  split used for display.
- Helpers: `Text` (ASCII lower-casing, decimal rendering, join/split),
  `Arith` (truncating division as Kotlin and JavaScript do it), `Wrappers`.

Clocks, generated session ids, pose detection results and socket identities
are parameters. The model follows the code where the code's own comments
say otherwise, in two places:

- The dashboard resets `postureStartTime` on every message, repeats included
  (web-dashboard/dashboard.js:69). So a label change credits only the time
  since the previous message, not the time since the posture began.
  The comment at web-dashboard/dashboard.js:59 speaks of the duration of the
  previous posture. `Dashboard.RepeatForfeitsEarlierTime` shows an input
  where the two differ.
- The mobile session's `totalPostures` counts observations (+1 each), while
  its doc comment at PostureData.kt:48 says seconds (`Mobile.CountAllCounts`).

## Model

| member | source | states |
|---|---|---|
| `FlatLayout.Flattened` | android-app/app/src/main/java/com/example/posturemonitoring/PoseAnalyzer.kt:42-46 | the flat list has length twice the landmark count, with x of landmark i at 2i and y at 2i+1 |
| `FlatLayout.Pairs` | python-backend/app.py:80-83 | pairing yields floor(n/2) points, point k being (s[2k], s[2k+1]); a trailing odd value is dropped |
| `FlatLayout.PairsOfFlattened` | python-backend/app.py:80-83 | pairing what the capture client flattened recovers every (x, y) in order |
| `FlatLayout.FlattenedOfPairs` | python-backend/app.py:80-83 | flattening the pairs gives the input back, minus any trailing odd value |
| `Analyzer.AdmittedTimes` | android-app/app/src/main/java/com/example/posturemonitoring/PoseAnalyzer.kt:30-31 | the admitted frames of a run are among the frames offered, no more of them than offered; a first frame that passes the gate is the first admission |
| `Analyzer.AdmittedTimesExtend` | android-app/app/src/main/java/com/example/posturemonitoring/PoseAnalyzer.kt:30-31 | frame by frame, the gate's if-and-only-if: one more frame is admitted exactly when it is at least 500 ms after the latest admission (or the start value when there was none), and earlier admissions stay as they were |
| `Analyzer.AdmittedFramesSpaced` | android-app/app/src/main/java/com/example/posturemonitoring/PoseAnalyzer.kt:30-31 | each admitted frame is at least 500 ms after the previous admission, so any two admitted frames are at least 500 ms apart |
| `Analyzer.PoseAnalyzer.constructor` | android-app/app/src/main/java/com/example/posturemonitoring/PoseAnalyzer.kt:17 | the last-analysed time starts at 0 |
| `Analyzer.PoseAnalyzer.Analyze` | android-app/app/src/main/java/com/example/posturemonitoring/PoseAnalyzer.kt:26-62 | a frame is admitted iff now - last >= 500; admission sets last := now, rejection leaves it; the callback gets an array iff the frame was admitted and the detected landmark list is non-empty, and the array is the flattened list |
| `Analyzer.FlattenLandmarks` | android-app/app/src/main/java/com/example/posturemonitoring/PoseAnalyzer.kt:42-46 | a new array of length 2n with arr[2i] = x_i and arr[2i+1] = y_i |
| `PostureData.LandmarksOf` | android-app/app/src/main/java/com/example/posturemonitoring/PostureData.kt:113-126 | floor(n/2) landmarks, landmark k = (arr[2k], arr[2k+1]) with z = 0 and visibility = 1 |
| `PostureData.ConvertToLandmarks` | android-app/app/src/main/java/com/example/posturemonitoring/PostureData.kt:113-126 | the step-2 loop returns floor(n/2) landmarks in input order, each (arr[2k], arr[2k+1], 0, 1); a trailing unpaired value is dropped |
| `PostureData.LandmarksOfFlattened` | android-app/app/src/main/java/com/example/posturemonitoring/PostureData.kt:113-126 | converting what PoseAnalyzer flattened yields one default landmark per detected position, in order |
| `PostureData.SessionIdJson` | android-app/app/src/main/java/com/example/posturemonitoring/PostureData.kt:103 | an absent session id is the literal `null`; a present one is the id between double quotes, unescaped |
| `PostureData.SessionIdRoundTrip` | android-app/app/src/main/java/com/example/posturemonitoring/PostureData.kt:103 | the session id can be read back from its JSON text |
| `PostureData.ToJson` | android-app/app/src/main/java/com/example/posturemonitoring/PostureData.kt:98-106 | the text opens with the brace and the timestamp key, and ends with the session id value and the closing brace; that every field reads back out of it is `ToJsonRoundTrip` |
| `PostureData.ToJsonRoundTrip` | android-app/app/src/main/java/com/example/posturemonitoring/PostureData.kt:98-106 | reading the text back gives the timestamp, each landmark value's rendering in order, and the session id, whenever rendered floats are non-empty and hold no `,` or `]` |
| `PostureData.LandmarksJsonShape` | android-app/app/src/main/java/com/example/posturemonitoring/PostureData.kt:102 | the joined landmark list holds no `]`, is empty iff there are no landmarks, and splits at commas into the renderings |
| `PostureData.ZeroTotals` | android-app/app/src/main/java/com/example/posturemonitoring/PostureData.kt:54-58 | exactly the keys sitting, standing, lying, each 0 |
| `PostureData.PostureSession.constructor` | android-app/app/src/main/java/com/example/posturemonitoring/PostureData.kt:50-59 | a new session keeps its id and start time, has no end time and zeroed totals |
| `PostureData.PostureType.DisplayName` | android-app/app/src/main/java/com/example/posturemonitoring/PostureData.kt:76-81 | every display name is non-empty and capitalised |
| `PostureData.DisplayNamesDistinct` | android-app/app/src/main/java/com/example/posturemonitoring/PostureData.kt:76-81 | two categories have the same display name iff they are the same category |
| `Mobile.ParsePosture` | android-app/app/src/main/java/com/example/posturemonitoring/MainActivity.kt:133-139 | a string maps to Sitting, Standing or Lying iff it lower-cases to that label, and to Unknown iff its lower-case form is none of the three |
| `Mobile.PostureTextDistinguishes` | android-app/app/src/main/java/com/example/posturemonitoring/MainActivity.kt:133-141 | two replies show the same posture text iff they map to the same category |
| `Mobile.ParsePostureIgnoresCase` | android-app/app/src/main/java/com/example/posturemonitoring/MainActivity.kt:134 | strings equal up to case map to the same category |
| `Mobile.CountObservation` | android-app/app/src/main/java/com/example/posturemonitoring/MainActivity.kt:144-152 | the key set never changes; a recognised lower-cased label grows by exactly 1, every other entry stays; an unrecognised label changes nothing |
| `Mobile.CountedIffRecognised` | android-app/app/src/main/java/com/example/posturemonitoring/MainActivity.kt:147 | on session totals, an observation changes the totals iff the display mapping recognises it |
| `Mobile.CountAll` | android-app/app/src/main/java/com/example/posturemonitoring/MainActivity.kt:144-152 | a run of observations keeps the key set |
| `Mobile.CountAllCounts` | android-app/app/src/main/java/com/example/posturemonitoring/MainActivity.kt:147-149 | after a run, each entry has grown by the number of observations of its label: counts, not seconds |
| `Mobile.SessionDurationSeconds` | android-app/app/src/main/java/com/example/posturemonitoring/MainActivity.kt:105 | the reported duration is the elapsed milliseconds divided by 1000, truncated toward zero |
| `Mobile.MainActivity.constructor` | android-app/app/src/main/java/com/example/posturemonitoring/MainActivity.kt:29-30 | not monitoring and no session at first |
| `Mobile.MainActivity.OnStartButtonClick` | android-app/app/src/main/java/com/example/posturemonitoring/MainActivity.kt:75-81 | when idle, a click starts a fresh session with zeroed totals and sets monitoring; when monitoring (and so holding a session), it clears both and always reports the duration; the flag stays true iff a session exists |
| `Mobile.MainActivity.StartMonitoring` | android-app/app/src/main/java/com/example/posturemonitoring/MainActivity.kt:84-100 | a new session with the given id, the clock as start time, no end time and zero totals; monitoring on, so the flag and the session agree |
| `Mobile.MainActivity.StopMonitoring` | android-app/app/src/main/java/com/example/posturemonitoring/MainActivity.kt:102-119 | monitoring off and no session; the shown duration is the truncated seconds since the old session's start, if there was one |
| `Mobile.MainActivity.OnPoseDetected` | android-app/app/src/main/java/com/example/posturemonitoring/MainActivity.kt:67-71 | landmarks are sent iff monitoring is on (line 68) and a session exists (the `currentSession?.let` at line 122) |
| `Mobile.MainActivity.UpdateSessionStats` | android-app/app/src/main/java/com/example/posturemonitoring/MainActivity.kt:144-152 | the current session's totals become the counted totals; with no session nothing changes |
| `Mobile.MainActivity.OnPostureReceived` | android-app/app/src/main/java/com/example/posturemonitoring/MainActivity.kt:123-128 | shows the mapped category's display name and counts the observation |
| `Backend.PairCoords` | python-backend/app.py:80-83 | the loop yields floor(n/2) coords with coords[k] = [landmarks[2k], landmarks[2k+1]] |
| `Backend.Classify` | python-backend/app.py:106-114 | lying iff torso < 0.05, whatever the hip height; otherwise standing iff hip < 0.4, and sitting iff hip >= 0.4 |
| `Backend.ClassifyIsKnown` | python-backend/app.py:106-114 | the decision is always lying, sitting or standing, never unknown |
| `Backend.HipY` | python-backend/app.py:96-97 | the hip height is the mean of the normalised y of landmarks 23 and 24: twice it times 1920 is their sum, and it lies between the two |
| `Backend.ShoulderY` | python-backend/app.py:94-95 | the shoulder height is the mean of the normalised y of landmarks 11 and 12, lying between the two |
| `Backend.PostureOf` | python-backend/app.py:94-114 | in pixels: lying iff the shoulder and hip y-sums differ by less than 192; otherwise standing iff the hip y-sum is below 1536, sitting iff it is at least 1536 |
| `Backend.TorsoLength` | python-backend/app.py:100-102 | the torso length is the non-negative distance between mean shoulder and mean hip height |
| `Backend.HandleMessage` | python-backend/app.py:76-140 | no landmarks key: exactly the error "No landmarks in data", no broadcast; fewer than 25 pairs: posture unknown with "Insufficient landmarks", no broadcast; otherwise reply and broadcast carry the same known posture and the incoming timestamp, with confidence high |
| `Backend.IndexOf` | python-backend/app.py:45 | the first position holding the socket |
| `Backend.RemoveFirst` | python-backend/app.py:43-49 | an absent socket leaves the list unchanged; a present one loses its first occurrence, the rest keeps its order |
| `Backend.RemoveFirstMultiset` | python-backend/app.py:45 | removal takes out exactly one copy of a present socket and nothing else |
| `Backend.DisconnectUndoesConnect` | python-backend/app.py:35-45 | appending a new socket and disconnecting it restores the list |
| `Backend.ConnectionManager.constructor` | python-backend/app.py:31-33 | both lists start empty |
| `Backend.ConnectionManager.ConnectAndroid` | python-backend/app.py:35-37 | appends to the capture-client list, the dashboard list is untouched |
| `Backend.ConnectionManager.ConnectDashboard` | python-backend/app.py:39-41 | appends to the dashboard list, the capture-client list is untouched |
| `Backend.ConnectionManager.DisconnectAndroid` | python-backend/app.py:43-45 | removes the socket only if present; the other list is untouched |
| `Backend.ConnectionManager.DisconnectDashboard` | python-backend/app.py:47-49 | removes the socket only if present; the other list is untouched |
| `Backend.ConnectionManager.BroadcastRecipients` | python-backend/app.py:52-57 | the update goes to every dashboard socket, in list order |
| `Dashboard.Initial` | web-dashboard/dashboard.js:19-21 | totals zero for exactly the three labels, no posture yet |
| `Dashboard.ElapsedSeconds` | web-dashboard/dashboard.js:61 | the floor of the millisecond gap divided by 1000 |
| `Dashboard.Step` | web-dashboard/dashboard.js:56-73 | after every call, the last posture is the new one and the start time is now; the key set never grows |
| `Dashboard.FirstObservationCreditsNothing` | web-dashboard/dashboard.js:60 | with no previous posture no total changes |
| `Dashboard.ChangeCreditsPreviousLabel` | web-dashboard/dashboard.js:60-64 | on a change, exactly the previous label grows, by floor((now - start)/1000); all other totals stay |
| `Dashboard.RepeatCreditsNothing` | web-dashboard/dashboard.js:60-69 | a repeated label changes no total but still moves the start time to now |
| `Dashboard.UnslottedLabelCreditsNothing` | web-dashboard/dashboard.js:62 | a previous label without a slot (such as unknown) never changes any total |
| `Dashboard.Run` | web-dashboard/dashboard.js:56-73 | over a run of messages the key set is kept and the last message decides the posture and start time |
| `Dashboard.RunCreditsAtMostElapsed` | web-dashboard/dashboard.js:61-69 | with a clock that never runs backwards, totals never decrease, and the seconds credited never exceed the whole seconds elapsed |
| `Dashboard.TotalsStayNonNegative` | web-dashboard/dashboard.js:19-21 | from page load, with a clock that never runs backwards, every total stays non-negative |
| `Dashboard.RepeatForfeitsEarlierTime` | web-dashboard/dashboard.js:69 | sitting at 0, sitting at 1500, standing at 2000 credits sitting with 0 s, not 2 s |
| `Dashboard.MinutesAndSeconds` | web-dashboard/dashboard.js:76-78 | for a non-negative total s, m*60 + r == s with 0 <= r < 60 |
| `Dashboard.DurationText` | web-dashboard/dashboard.js:76-78 | the `m min s sec` text of any non-negative total reads back to that total |
| `Dashboard.DurationTextReads` | web-dashboard/dashboard.js:76-78 | any minutes and seconds written in the display layout read back as m*60 + s |
| `Dashboard.PostureDashboard.constructor` | web-dashboard/dashboard.js:19-21 | the page starts in the initial tracker state |
| `Dashboard.PostureDashboard.UpdatePostureData` | web-dashboard/dashboard.js:56-73 | the new state is one tracker step from the old, using the clock and ignoring the timestamp argument |
| `Dashboard.PostureDashboard.OnMessage` | web-dashboard/dashboard.js:42-54 | only parsed posture_update messages with a posture reach the tracker, lower-cased; all else leaves the state unchanged |
| `Text.Lower` | android-app/app/src/main/java/com/example/posturemonitoring/MainActivity.kt:146 | the result has no upper-case letter and differs from the input only where it had one |
| `Text.DecimalRoundTrip` | android-app/app/src/main/java/com/example/posturemonitoring/PostureData.kt:101 | the decimal text of the timestamp reads back to the same number |
| `Text.Join` | android-app/app/src/main/java/com/example/posturemonitoring/PostureData.kt:102 | every character of the join is the separator or comes from some part; the first part leads it, followed by the separator when there is a second; the join is empty iff there are no parts or just one empty part |
| `Text.JoinAvoids` | android-app/app/src/main/java/com/example/posturemonitoring/PostureData.kt:102 | a character other than the separator that occurs in no part does not occur in the join |
| `Text.SplitJoin` | android-app/app/src/main/java/com/example/posturemonitoring/PostureData.kt:102 | splitting a comma-joined list gives back the parts when none holds a comma |
| `Arith.TruncDiv` | android-app/app/src/main/java/com/example/posturemonitoring/MainActivity.kt:105 | Kotlin division: truncates toward zero, q*b + rem == a |
| `Arith.TruncRem` | web-dashboard/dashboard.js:76 | JavaScript `%`: the remainder has the sign of the dividend and is smaller than the divisor |

## Left out

- Android UI, camera binding, permissions and Toast display: platform
  lifecycle and UI. Only the duration value the stop Toast shows is modelled.
- ML Kit pose detection: a foreign library. Its landmark list is an input
  (`None` when the frame had no image or detection failed). The frame's
  `close()` calls are resource handling and are not modelled.
- `Analyzer.PoseAnalyzer.Analyze`: the `AtomicLong` field is modelled as a
  plain field updated sequentially; concurrent frames are not modelled.
- `ApiService.kt`: the OkHttp/Gson socket client. The posture string it
  hands to the activity (with its `"unknown"` fallback) is an input. The
  client serialises with Gson, not with `toJson`.
- FastAPI endpoints, CORS, async send/receive, the keep-alive sleep, JSON
  encoding and decoding, logging and the `joblib` classifier load: I/O and
  plumbing. The loaded classifier is never used.
- `Backend.HandleMessage`: coordinates are exact `real`s, so float rounding in
  the normalisation and averaging is not modelled. `nose_y` (app.py:93)
  plays no part in the decision, so it is left out, but the source still
  reads it and it can raise (below). The `len(coords) > k` fallbacks are
  left out too: the 25-pair gate makes them dead. The model accepts only
  messages whose `landmarks` is a list of numbers. In the source, other
  values behave as follows:
  - A value without a length (a number, `null`) raises at app.py:81.
  - A JSON object with two or more keys raises a `KeyError` at app.py:83,
    because `landmarks[0]` looks up a key that is not there. An object
    with one key pairs into no coords and gets "Insufficient landmarks".
  - A short string or list of the wrong kind (`"abc"`, `[null]`) pairs
    into fewer than 25 coords and gets the "Insufficient landmarks" reply.
  - With 25 pairs, a y value that cannot be divided by a float raises. At
    pair 0 it raises at app.py:93 (`nose_y`); at pairs 11, 12, 23 or 24 it
    raises at app.py:94-97.
  - A message that is not JSON raises at app.py:74.

  Any such raise ends the receive loop. Only `WebSocketDisconnect` reaches
  `disconnect_android` (app.py:142-143), so the socket then stays in the
  capture-client list.
- `PostureData.ToJson`: float rendering is the parameter `render`, and the
  read-back holds for renderings that are non-empty and free of `,` and `]`,
  as Kotlin's are. The
  layout is the one `trimIndent` gives when the session id holds no line
  break; `trimIndent`'s re-indentation of a multi-line session id is not
  modelled.
- `generateSessionId`: depends on the clock and randomness; the id is a
  parameter.
- Chart.js, DOM updates, connection status and the capitalised current
  posture text on the dashboard: UI.
- `datasets/train_classifier.py`: an offline scikit-learn script.
- `Text.Lower`: lower-cases ASCII letters only. Kotlin `lowercase()` and
  JavaScript `toLowerCase()` are Unicode-wide. No non-ASCII character
  lower-cases to a string equal to sitting, standing or lying, so matching
  is unaffected.
- `Dashboard.Step`: a total is credited only for a label that is an own key
  of `postureTimes`. In JavaScript, `postureTimes[k] !== undefined` also
  holds for inherited names such as `constructor`, which the backend never
  sends.
- `Mobile.CountObservation`: does not model Kotlin `Int` wrap-around at
  2^31 - 1 observations. Clock values and JavaScript numbers are unbounded
  integers; both are exact in the source below 2^53.
- `Dashboard.PostureDashboard.OnMessage`: a `posture` that is not a string
  throws inside the handler, which the model treats like an absent posture
  (no change).
