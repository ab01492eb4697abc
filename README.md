# Chat recording controller and CO2 page, modelled in Dafny

This project models the three pieces of logic in a small in-car assistant
web front end:

- **The chat page's recording and sending controller** (`src/pages/Chat.jsx`).
  The user either types a question, which goes to `/api/ask`, or records a
  voice message, which goes to `/api/voice`. A recording stops in one of
  three ways: manually, after 1200 ms of silence, or at the 15000 ms hard
  cap. All three go through one stop path guarded by a latch. The transcript
  is a list that only ever grows.
- **The CO2 page's graph carousel** (`src/pages/Co2.jsx`). It has three
  slides. `go(i)` wraps any integer onto a slide index. The `useSwipe` hook
  fires at most one left or right callback per press.
- **The CO2 zone classifier** (`src/utils/co2.js`). It maps a ppm reading to
  good, warn, mid or danger, each with a label and a colour.

Files:

- `options.dfy`: `Option`, for JavaScript's null or missing values.
- `co2_zone.dfy` (module `Co2Utils`): `co2Zone`, `CO2_COLORS`, and lemmas
  showing that the zones are total and monotone.
- `co2_page.dfy` (module `Co2Page`): JavaScript's truncating `%` and the
  `go` formula. The swipe hook appears twice: as a pure step function with a
  lemma over whole event runs, and as the classes `Swipe` and `Carousel`,
  whose methods update the refs and the index in place.
- `chat_text.dfy` (module `ChatText`): the chat page's pure helpers, as
  functions:
  - JavaScript `trim`, UTF-16 `length` and `includes`;
  - `isShort` and the bullet test;
  - `pickMime`, the blob type and the file extension;
  - chunk concatenation;
  - the frame-loudness definition;
  - the texts of both exchanges' replies.
- `chat_page.dfy` (module `ChatPage`): the controller.
  - `Recorder` stands for a `MediaRecorder`. It logs the calls made on it,
    which lets the contracts state their order.
  - `ChatController` holds the page's state and refs. Each event handler is
    one method.
  - `MeasureVoiced` is the `detect` loop that sums the frame's energy.

How the browser is modelled:

- Whatever the browser or the server decides arrives as a method parameter:
  - the permission outcome;
  - `isTypeSupported`;
  - the clock;
  - whether a frame is voiced;
  - the HTTP replies.
- The browser's queues of scheduled `requestAnimationFrame` and `setTimeout`
  callbacks are two sets of handles. A callback method can run only while
  its handle is pending. This lets a manual stop interleave with a detection
  frame that was already scheduled.
- `send` and `onstop` each await `fetch`, and other events can run during
  that wait. So each is split in two:
  - `Send`, then `AskCompletes`;
  - `OnStop`, then `VoiceCompletes`.
- `startRecording` awaits `getUserMedia`, and other events can run during
  that wait too. `StartRecording` is the part after the permission settles.
  It does not require that nothing is recording, so a second start settling
  during the wait is represented by calling it directly, not through
  `MicClick`.

What the code does and does not do, as the model follows it:

- Messages are only ever appended. There is no placeholder that is later
  replaced in place.
- There is no single mode variable. `recording` and `sending` are
  independent:
  - the microphone button works while a text reply is awaited;
  - a voice exchange never sets `sending`;
  - `send` itself checks only `sending`. Only the disabled input and send
    button keep it from running during a recording.
- The voice exchange does not check the HTTP status.
- Neither exchange has a timeout.
- There is no playback of a synthesized reply and no alarm polling.
- `isStoppingRef` adds no protection of its own. It is set only together
  with dropping the recorder handle, so it is true only when the handle is
  already null. `ChatController.Valid` states this.

## Model

| member | source | states |
|---|---|---|
| `Co2Utils.Co2Zone` | src/utils/co2.js:9-14 | good iff ppm <= 700; warn iff 700 < ppm <= 1000; mid iff 1000 < ppm <= 1500; danger iff ppm > 1500. The label and the colour are those of the returned key. |
| `Co2Utils.Co2Color` | src/utils/co2.js:2-7 | Every palette entry is a seven-character colour "#RRGGBB" in upper-case hexadecimal. |
| `Co2Utils.ZoneFieldsDistinguishKeys` | src/utils/co2.js:2-7 | Distinct keys have distinct names, palette colours and labels. |
| `Co2Utils.Co2ZoneMonotone` | src/utils/co2.js:10-13 | A higher ppm never gives a better zone in the order good < warn < mid < danger. |
| `Co2Utils.Co2ZoneTotal` | src/utils/co2.js:3-13 | The good zone has no lower bound: every value up to 700, values below 400 included, gets "좋음" in "#5E9F5C", whatever the palette comment says. (That each value lies in exactly one zone is stated by `Co2Zone`'s four iff clauses.) |
| `Co2Utils.DisplayedReadingIsGood` | src/pages/Co2.jsx:68-69 | The displayed reading 417.9 is good, shown as "좋음" in "#5E9F5C". |
| `Co2Page.JsRem` | src/pages/Co2.jsx:65 | JavaScript `%`: the result lies in (-n, n), has the sign of the dividend and differs from it by a multiple of n. |
| `Co2Page.Wrap` | src/pages/Co2.jsx:65 | `((i % n) + n) % n` with JavaScript `%` lies in [0, n) for every integer i, negatives included, and equals the Euclidean residue of i. |
| `Co2Page.WrapIdentityOnRange` | src/pages/Co2.jsx:137-140 | `go` is the identity on 0..2, so dot i selects slide i. |
| `Co2Page.WrapEnds` | src/pages/Co2.jsx:65 | go(3) = 0 and go(-1) = 2. |
| `Co2Page.LeftRightInverse` | src/pages/Co2.jsx:66 | A left swipe then a right swipe, or the reverse, restores the slide. |
| `Co2Page.Apply` | src/pages/Co2.jsx:66 | No gesture keeps the index. onLeft lands on a slide congruent to index + 1, onRight on one congruent to index - 1, whatever the starting index. |
| `Co2Page.ApplyStaysOnSlides` | src/pages/Co2.jsx:66 | The swipe callbacks keep the index on a slide. A fired swipe always changes the slide. |
| `Co2Page.Decide` | src/pages/Co2.jsx:39-42 | No callback when abs(dx) <= threshold (strict comparison). Otherwise exactly one: onLeft when dx < 0, onRight when dx >= 0. |
| `Co2Page.Step` | src/pages/Co2.jsx:36-45 | `start` arms the gesture at x and fires nothing; `end` clears both refs and fires nothing; `move` keeps startX, fires only when armed with a start position, then fires `Decide(x - startX)`, and disarms exactly when it fires. |
| `Co2Page.AtMostOneSwipePerPress` | src/pages/Co2.jsx:36-45 | For any run of moves and ends without a new start, at most one callback fires. None fires when the gesture was not armed: before any start, after an end, or after one already fired. |
| `Co2Page.Swipe.constructor` | src/pages/Co2.jsx:32-34 | Starts with startX null and isDown false, with the given threshold. |
| `Co2Page.Swipe.Start` | src/pages/Co2.jsx:36 | Sets startX to x and arms isDown. |
| `Co2Page.Swipe.Move` | src/pages/Co2.jsx:37-44 | Unarmed, or with startX null: no callback and nothing changes. Armed: the callback is `Decide(x - startX)`, and isDown is cleared exactly when a callback fires. startX is never changed. |
| `Co2Page.Swipe.End` | src/pages/Co2.jsx:45 | Clears both startX and isDown. |
| `Co2Page.Carousel.constructor` | src/pages/Co2.jsx:60-66 | Index 0, threshold 40, gesture unarmed. |
| `Co2Page.Carousel.Go` | src/pages/Co2.jsx:65 | The index becomes `Wrap(i, 3)`, always a valid slide. |
| `Co2Page.Carousel.OnLeft` | src/pages/Co2.jsx:66 | The index becomes go(index + 1). |
| `Co2Page.Carousel.OnRight` | src/pages/Co2.jsx:66 | The index becomes go(index - 1). |
| `Co2Page.Carousel.DotClick` | src/pages/Co2.jsx:137-140 | Clicking dot i (0..2) selects slide i. |
| `Co2Page.Carousel.PointerDown` | src/pages/Co2.jsx:49-52 | Touch start and mouse down run `start` and leave the index alone. |
| `Co2Page.Carousel.PointerMove` | src/pages/Co2.jsx:50 | Touch move runs one `move` step, and the index follows the callback it fired. |
| `Co2Page.Carousel.MouseMove` | src/pages/Co2.jsx:53 | Mouse move behaves exactly like touch move. Its extra isDown guard changes nothing. |
| `Co2Page.Carousel.PointerUp` | src/pages/Co2.jsx:51-55 | Touch end, mouse up and mouse leave run `end` and leave the index alone. |
| `ChatText.IsJsSpace` | src/pages/Chat.jsx:216 | The characters `trim` removes. Among ASCII they are exactly the space and the controls from tab to carriage return; all lie in the Basic Multilingual Plane. |
| `ChatText.Trim` | src/pages/Chat.jsx:216 | `trim` gives the contiguous part of the input that follows its leading whitespace, does not start or end with whitespace, and is followed only by whitespace. It is empty exactly when the input is all whitespace. |
| `ChatText.TrimIdempotent` | src/pages/Chat.jsx:216 | Trimming again changes nothing. |
| `ChatText.Utf16Length` | src/pages/Chat.jsx:5 | `length` counts UTF-16 units. It lies between the number of characters and twice that, and equals it for text in the Basic Multilingual Plane. A single character counts 2 when it lies above U+FFFF and 1 otherwise. |
| `ChatText.Utf16LengthConcat` | src/pages/Chat.jsx:5 | The length of a concatenation is the sum of the lengths, so with the one-character case the UTF-16 count of any text is fixed. |
| `ChatText.IsShort` | src/pages/Chat.jsx:5 | Holds iff the text has at most 12 UTF-16 units and no "\n". For Basic Multilingual Plane text, that means at most 12 characters. Any one-line text of 6 characters or fewer is short. |
| `ChatText.SevenEmojiAreNotShort` | src/pages/Chat.jsx:5 | Seven emoji are seven characters but 14 UTF-16 units, so they are not short. |
| `ChatText.Contains` | src/pages/Chat.jsx:131 | `includes` holds iff the pattern occurs in the string at some position. |
| `ChatText.IsBullet` | src/pages/Chat.jsx:38 | Holds iff the trimmed line starts with "- ". A bullet line contains "- ". |
| `ChatText.StripBulletAsWritten` | src/pages/Chat.jsx:42 | The regex as written changes only lines that start with "-\\". Every other line comes back unchanged. |
| `ChatText.StripBullet` | src/pages/Chat.jsx:42 | Corrected removal: a line that starts with a dash loses the dash and the whitespace after it, and the rest does not start with whitespace. Other lines are unchanged. |
| `ChatText.RenderLineAsWritten` | src/pages/Chat.jsx:37-46 | A line is laid out as a bullet iff the bullet test holds. Plain lines are shown unchanged. |
| `ChatText.RenderLine` | src/pages/Chat.jsx:37-46 | The same classification, using the corrected marker removal. |
| `ChatText.AsWrittenKeepsDash` | src/pages/Chat.jsx:42 | As written, a bullet line "- body" still shows its "- " after the bullet dot. |
| `ChatText.StripBulletShowsBody` | src/pages/Chat.jsx:42 | Corrected: a dash, then whitespace, then a body that does not start with whitespace shows exactly the body. |
| `ChatText.PickMime` | src/pages/Chat.jsx:96-100 | Ogg/Opus when supported, else WebM/Opus when supported, else "". A non-empty choice is always supported. |
| `ChatText.BlobType` | src/pages/Chat.jsx:125 | The recorder's type when it is non-empty, else "audio/webm". Never empty. |
| `ChatText.Extension` | src/pages/Chat.jsx:131 | "ogg" iff the type contains "ogg"; otherwise "wav" iff it contains "wav"; otherwise "webm". |
| `ChatText.ExtensionOfRequestedTypes` | src/pages/Chat.jsx:131-133 | Ogg/Opus uploads as voice.ogg. WebM/Opus, and the fallback type, upload as voice.webm. |
| `ChatText.Flatten` | src/pages/Chat.jsx:126 | No chunks give an empty blob; one chunk gives exactly its bytes. |
| `ChatText.FlattenConcat` | src/pages/Chat.jsx:111-126 | The sealed blob of two runs of chunks is the blob of the first followed by the blob of the second. Appending a chunk appends exactly its bytes, in arrival order. |
| `ChatText.FlattenSize` | src/pages/Chat.jsx:126 | The blob's size is the sum of the chunk sizes. No byte is lost or added. |
| `ChatText.EnergySumBound` | src/pages/Chat.jsx:170-176 | Each sample's normalised deviation is at most 1, so the mean square, and hence the RMS, lies in [0, 1]. |
| `ChatText.IsVoicedFrame` | src/pages/Chat.jsx:170-179 | A frame is voiced iff it is non-empty and 10000 times its energy sum exceeds 36864 times its length, which is rms > 0.015 in exact arithmetic. An empty frame is never voiced. |
| `ChatText.NatToDecimal` | src/pages/Chat.jsx:231 | The status prints as a non-empty run of decimal digits, with no leading zero. |
| `ChatText.DecimalRoundTrip` | src/pages/Chat.jsx:231 | Reading the printed status back as digits gives the status. |
| `ChatText.IsOkStatus` | src/pages/Chat.jsx:231 | `res.ok`: the status lies in 200..299. |
| `ChatText.AskReplyText` | src/pages/Chat.jsx:231-240 | The answer; "응답 없음" when it is missing (an empty answer is kept); "서버 연결 실패: HTTP <status>" on a non-OK status; "서버 연결 실패: " plus the error's message (or its rendering when the message is empty) on a thrown error. |
| `ChatText.AskFailureIsReported` | src/pages/Chat.jsx:236-240 | Every failed text exchange produces a message that starts with the failure prefix, and a bad status can be read back from it. |
| `ChatText.VoiceReplyMessages` | src/pages/Chat.jsx:135-145 | All bot messages. A reply gives exactly two: "📝 인식: " plus the transcript ("undefined" when missing), then the answer, or "(응답 없음)" when it is missing or empty. A thrown error gives exactly one: "음성 전송 실패: " plus the error. |
| `ChatPage.MeasureVoiced` | src/pages/Chat.jsx:166-179 | The `detect` loop's energy sum decides voiced exactly when the frame's RMS exceeds 0.015. |
| `ChatPage.StopCalls` | src/pages/Chat.jsx:202-208 | An effective stop flushes first and stops the tracks last. It calls `stop()` iff the recorder was active: `[requestData, stop, track stop]` for an active recorder, `[requestData, track stop]` for an inactive one. |
| `ChatPage.Recorder.Begin` | src/pages/Chat.jsx:149 | `mr.start(250)` makes the recorder active and logs the start with its timeslice. |
| `ChatPage.Recorder.Flush` | src/pages/Chat.jsx:205 | `requestData` is logged. It throws exactly when the recorder is inactive, which the caller swallows. |
| `ChatPage.Recorder.EndedByBrowser` | src/pages/Chat.jsx:206 | The browser can end a recording on its own. The recorder becomes inactive and the page makes no call. |
| `ChatPage.Recorder.Halt` | src/pages/Chat.jsx:206 | `stop()` makes an active recorder inactive and is logged. |
| `ChatPage.Recorder.ReleaseTracks` | src/pages/Chat.jsx:208 | Stopping the stream's tracks is logged and leaves the recorder's state alone. |
| `ChatPage.ChatController.constructor` | src/pages/Chat.jsx:69-90 | The transcript holds only the greeting. The input is empty, nothing is recording or sending, no handle is held and no callback is scheduled. |
| `ChatPage.ChatController.SetInput` | src/pages/Chat.jsx:283 | The input becomes the typed text. |
| `ChatPage.ChatController.StartRecording` | src/pages/Chat.jsx:102-197 | Denied: only the "마이크 권한을 허용해 주세요." message is appended; nothing else changes. If `mr.start` throws, the chunks are already emptied and the latch cleared, and the same message is appended; no recorder is held and nothing is scheduled. Otherwise a fresh recorder of the preferred type is started and held, the chunks are emptied, the latch is cleared and `recording` is set. If the audio setup then fails, the same message is appended. If it succeeds, lastNonSilent = now, and one detection frame and one hard-cap timeout are scheduled. Sending and the input are untouched. |
| `ChatPage.ChatController.OpenRecorder` | src/pages/Chat.jsx:105-151 | Empties the chunk list, clears the latch, starts a recorder of the preferred type with a 250 ms timeslice and holds it. Sets `recording`. |
| `ChatPage.ChatController.ArmDetection` | src/pages/Chat.jsx:153-192 | Marks the analyser live, sets lastNonSilent to now, and schedules one frame and one timeout with fresh handles. |
| `ChatPage.ChatController.OnDataAvailable` | src/pages/Chat.jsx:111-113 | Appends the chunk iff it is present and non-empty. The bytes to be sealed grow by exactly the chunk's bytes. |
| `ChatPage.ChatController.StopRecording` | src/pages/Chat.jsx:199-213 | With no handle, or with the latch set, nothing changes, so a second call changes nothing. Otherwise it sets the latch and logs a flush, `stop()` only if the recorder is active, then the track stop. The recorder ends inactive, the handle is null and `recording` is false. Everything else is unchanged. |
| `ChatPage.ChatController.DetectTick` | src/pages/Chat.jsx:163-189 | Consumes its frame. With no analyser it does nothing more. A voiced frame sets lastNonSilent to now. Silence expires iff now - lastNonSilent > 1200, strictly, and never on a voiced frame. On expiry it runs the latched stop and schedules nothing. Otherwise it schedules exactly one next frame, and the held recorder is untouched. The transcript, the chunks, the timeout and the pending voice exchanges are untouched. |
| `ChatPage.ChatController.HardCapTimeout` | src/pages/Chat.jsx:192 | Consumes its timeout and runs the same latched stop. Afterwards no handle is held and `recording` is false. Every other field, the detector's state and the pending voice exchanges included, is unchanged. |
| `ChatPage.ChatController.OnStop` | src/pages/Chat.jsx:115-134 | Cancels the current frame and timeout and drops the analyser. Appends only "🎤 (음성 메시지 전송)". Uploads `voice.<ext>` holding exactly the concatenated chunks, typed `mr.mimeType` or "audio/webm". The recording state and the input are untouched. |
| `ChatPage.ChatController.TearDownDetection` | src/pages/Chat.jsx:117-123 | The current frame and timeout are no longer pending, and the analyser is dropped. |
| `ChatPage.ChatController.VoiceCompletes` | src/pages/Chat.jsx:135-145 | Appends the voice reply messages: two on a reply, one on an error. Earlier messages are unchanged. |
| `ChatPage.ChatController.Send` | src/pages/Chat.jsx:215-222 | While sending, or with blank input, nothing changes. Otherwise it appends exactly one user message with the trimmed text, clears the input, sets `sending` and issues that question. |
| `ChatPage.ChatController.AskCompletes` | src/pages/Chat.jsx:224-243 | On every outcome, appends exactly one bot message with `AskReplyText` and clears `sending`. |
| `ChatPage.ChatController.MicClick` | src/pages/Chat.jsx:269-279 | While recording, it runs the effective latched stop: flush, `stop()`, track stop, the latch set, the handle dropped, and nothing else changed. Otherwise it starts, with each outcome's effects as in `StartRecording`. It works, and leaves `sending` alone, even while a text reply is awaited. |
| `ChatPage.StopRace` | src/pages/Chat.jsx:199-202 | A manual stop followed by a silence expiry in an already-scheduled frame leaves the recorder with exactly one flush, one stop and one track stop. |
| `ChatPage.VoicedFrameThenStop` | src/pages/Chat.jsx:179-213 | A voiced detection frame followed by a manual stop leaves the recorder with exactly one flush, one stop and one track stop: the frame does not touch the recorder. |
| `ChatPage.StopAfterBrowserEnded` | src/pages/Chat.jsx:205-208 | If the browser ended the recording first, a stop logs a flush and a track stop and skips `stop()`. The handle is dropped and the latch is set. |

## Left out

- Rendering is not modelled:
  - `Bubble`;
  - the `Row` markup, beyond classifying each line and removing its marker;
  - `scrollIntoView`;
  - placeholder texts and button styling;
  - the recharts charts and framer-motion.
- `src/pages/Home.jsx`, `src/components/Sidebar.jsx`, `src/App.jsx`, `vite.config.js`, `tailwind.config.js` and the dummy chart data are not part of this model. They are a clock, navigation, routing and configuration.
- RMS in floating point is not modelled. `MeasureVoiced` computes the same comparison in exact arithmetic, using rms > t iff mean square > t². `Math.sqrt` and rounding near the threshold are not modelled. `DetectTick` takes the voiced decision as a parameter.
- Browser APIs (`getUserMedia`, `MediaRecorder` internals, `AudioContext`, `Blob`, `FormData`, `fetch`, JSON parsing, `console.error`) are foreign code. Their outcomes are parameters: `StartOutcome`, `AskOutcome`, `VoiceOutcome`, `supported`, `browserType`, `now`.
- `StartRecording`: `MicDenied` covers a failure of `getUserMedia` or of `new MediaRecorder`. `RecorderStartFailed` covers `mr.start` throwing after the chunks and the latch were reset. `AudioSetupFailed` covers any failure from `new AudioContext()` on. In that case the analyser is recorded as unchanged, even when the analyser was created before the failure.
- `VoiceReplyMessages`: the body's `text` and `answer` fields are either a string or missing. A JSON `null` `text`, which prints as "null" rather than "undefined", and non-string fields, which `${}` and `||` would render or test differently, are not modelled.
- `AskReplyText`: a non-string `answer` field, which the page would show as it is, is not modelled; a JSON `null` answer is `None`, as `??` treats it like a missing one.
- `OnStop`: the `await audioCtx.close()` inside `onstop` is treated as if it did not yield, so no other event runs between the cleanup and the upload.
- `StopRecording`: the `auto` argument is never read and is dropped. The modelled recorder throws only from `requestData` on an inactive recorder, which the code swallows. So the `finally` block's guarantee is stated once, for every path.
- `HardCapTimeout`: the 15000 ms delay is not measured against the clock. The timeout fires as an event whenever its handle is pending.
- `Co2Utils.Co2Zone`: ppm is a real number. JavaScript's NaN, which would fall through to "danger", is not modelled.
- `Co2Page.Swipe.Move`: pointer positions are integers. Fractional `clientX` values are not modelled.
- Placeholder replacement, synthesized-speech playback, alarm polling and a guard against recording while sending are not in the code, so they are not modelled.

## Findings

| source | as written | input that shows it | evidently intended | confidence | as-written member | corrected member |
|---|---|---|---|---|---|---|
| src/pages/Chat.jsx:42 | `line.replace(/^-\\s*/, "")` matches a dash followed by a literal backslash and letters `s`. | The bullet line "- 환기" is drawn with the bullet dot and still shows "- 환기". | Remove the dash and the whitespace after it, showing "환기". | high (not executed) | `ChatText.AsWrittenKeepsDash` | `ChatText.StripBulletShowsBody` |
