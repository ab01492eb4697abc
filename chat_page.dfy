/** The recording and sending controller of the chat page
    (src/pages/Chat.jsx). Each event handler of the page is one method of
    `ChatController`; what the browser and the server do (microphone
    permission, the analyser's samples, the clock, the HTTP replies) arrives
    as method parameters, and each callback the page schedules is a separate
    method call. */
module ChatPage {
  import opened Options
  import opened ChatText

  /** `SILENCE_MS`: silence longer than this stops the recording. */
  const SilenceMs: real := 1200.0
  /** `MAX_RECORD_MS`: the hard cap on one recording. */
  const MaxRecordMs: nat := 15000
  /** The `timeslice` passed to `mr.start`, in ms. */
  const Timeslice: nat := 250

  datatype RecorderState = Inactive | Active

  /** The calls the page makes on a `MediaRecorder` and on its stream. */
  datatype RecorderCall = Start(timeslice: nat) | RequestData | Stop | StopTracks

  /** A `MediaRecorder` together with the calls made on it, in order. */
  class Recorder {
    const mimeType: string
    var state: RecorderState
    var calls: seq<RecorderCall>

    constructor (mimeType: string)
      ensures this.mimeType == mimeType && state == Inactive && calls == []
    {
      this.mimeType := mimeType;
      state := Inactive;
      calls := [];
    }

    /** `mr.start(timeslice)`. */
    method Begin(timeslice: nat)
      modifies this
      ensures state == Active && calls == old(calls) + [Start(timeslice)]
    {
      state := Active;
      calls := calls + [Start(timeslice)];
    }

    /** `mr.requestData()`: asks for the buffered data to be delivered; it
        throws when the recorder is already inactive. */
    method Flush() returns (threw: bool)
      modifies this
      ensures threw == (state == Inactive)
      ensures state == old(state) && calls == old(calls) + [RequestData]
    {
      calls := calls + [RequestData];
      threw := state == Inactive;
    }

    /** `mr.stop()`, called only on an active recorder. */
    method Halt()
      requires state == Active
      modifies this
      ensures state == Inactive && calls == old(calls) + [Stop]
    {
      state := Inactive;
      calls := calls + [Stop];
    }

    /** The browser ends the recording on its own (the track ends or the
        device goes away); the page makes no call. */
    method EndedByBrowser()
      modifies this
      ensures state == Inactive && calls == old(calls)
    {
      state := Inactive;
    }

    /** `mr.stream.getTracks().forEach((t) => t.stop())`. */
    method ReleaseTracks()
      modifies this
      ensures state == old(state) && calls == old(calls) + [StopTracks]
    {
      calls := calls + [StopTracks];
    }
  }

  /** The calls an effective stop makes: a flush first, then `stop()` unless
      the recorder is already inactive, then the tracks are stopped. */
  function StopCalls(state: RecorderState): (cs: seq<RecorderCall>)
    ensures |cs| >= 2 && cs[0] == RequestData && cs[|cs| - 1] == StopTracks
    ensures Stop in cs <==> state == Active
    ensures state == Active ==> cs == [RequestData, Stop, StopTracks]
    ensures state == Inactive ==> cs == [RequestData, StopTracks]
  {
    [RequestData] + (if state != Inactive then [Stop] else []) + [StopTracks]
  }

  /** How `getUserMedia` and the audio setup after it turn out. */
  datatype StartOutcome =
    | MicDenied            // getUserMedia rejects or `new MediaRecorder` throws: nothing is set up
    | RecorderStartFailed  // the chunks and the latch are reset, then `mr.start(250)` throws
    | AudioSetupFailed     // the recorder is started, then `new AudioContext()` throws
    | Started              // everything is set up

  /** The voice upload: `FormData` field "file" with the sealed blob. */
  datatype Upload = Upload(fileName: string, blobType: string, bytes: Bytes)

  /** `detect`'s loudness computation over one analyser frame: the RMS of
      `(data[i] - 128) / 128` compared with `SILENCE_THRESHOLD`, evaluated
      in exact arithmetic. */
  method MeasureVoiced(frame: seq<byte>) returns (voiced: bool)
    ensures voiced == IsVoicedFrame(frame)
  {
    var n := |frame|;
    var sum: nat := 0;
    var i := 0;
    while i < n
      invariant 0 <= i <= n
      invariant sum == EnergySum(frame[..i])
    {
      assert frame[..i + 1][..i] == frame[..i];
      var v := frame[i] as int - 128;
      sum := sum + v * v;
      i := i + 1;
    }
    assert frame[..n] == frame;
    voiced := n > 0 && (sum as real) / (16384.0 * n as real) > SilenceThreshold * SilenceThreshold;
  }

  /** The page's state and refs. Callback handles (`requestAnimationFrame`,
      `setTimeout`) are numbered from 1; 0 stands for the refs' initial
      `0` / `null`. The browser's queues of scheduled callbacks are
      `pendingFrames` and `pendingTimers`. */
  class ChatController {
    // React state
    var messages: seq<Message>
    var input: string
    var recording: bool
    var sending: bool
    // refs
    var mediaRec: Recorder?       // mediaRecRef
    var chunks: seq<Bytes>        // chunksRef
    var stopping: bool            // isStoppingRef
    var lastNonSilent: real       // lastNonSilentRef
    var analyserLive: bool        // analyserRef.current != null
    var rafId: nat                // rafRef
    var autoStopTimer: nat        // autoStopTimerRef
    // the event loop
    var pendingFrames: set<nat>
    var pendingTimers: set<nat>
    var nextHandle: nat
    var voiceExchanges: nat       // voice uploads whose reply has not arrived

    /** The handle is held exactly while `recording` is shown; the stopping
        latch is only ever set once the handle is dropped (so the latch never
        decides anything the null check has not already decided); every
        scheduled callback has a handle already issued; the transcript is
        never empty. */
    ghost predicate Valid()
      reads this
    {
      && recording == (mediaRec != null)
      && (stopping ==> mediaRec == null)
      && 1 <= nextHandle && rafId < nextHandle && autoStopTimer < nextHandle
      && (forall h :: h in pendingFrames ==> 1 <= h < nextHandle)
      && (forall h :: h in pendingTimers ==> 1 <= h < nextHandle)
      && |messages| >= 1
    }

    constructor ()
      ensures Valid()
      ensures messages == [Message(false, Greeting)] && input == ""
      ensures !recording && !sending && mediaRec == null && !stopping
      ensures chunks == [] && pendingFrames == {} && pendingTimers == {} && voiceExchanges == 0
    {
      messages := [Message(false, Greeting)];
      input := "";
      recording, sending := false, false;
      mediaRec, chunks, stopping := null, [], false;
      lastNonSilent, analyserLive := 0.0, false;
      rafId, autoStopTimer := 0, 0;
      pendingFrames, pendingTimers, nextHandle := {}, {}, 1;
      voiceExchanges := 0;
    }

    /** The input's `onChange`. */
    method SetInput(s: string)
      requires Valid()
      modifies this`input
      ensures Valid() && input == s
    {
      input := s;
    }

    /** `startRecording`, from the moment `getUserMedia` settles.
        `supported` is `MediaRecorder.isTypeSupported`, `browserType` the
        type the browser picks when none is requested, `now` the clock. */
    method StartRecording(outcome: StartOutcome, supported: string -> bool, browserType: string, now: real)
      returns (mr: Recorder?)
      requires Valid()
      modifies this
      ensures Valid()
      ensures sending == old(sending) && input == old(input) && voiceExchanges == old(voiceExchanges)
      ensures outcome == MicDenied || outcome == RecorderStartFailed ==>
                mr == null && messages == old(messages) + [Message(false, MicPermissionText)]
                && recording == old(recording) && mediaRec == old(mediaRec)
                && pendingFrames == old(pendingFrames) && pendingTimers == old(pendingTimers)
                && analyserLive == old(analyserLive) && lastNonSilent == old(lastNonSilent)
                && rafId == old(rafId) && autoStopTimer == old(autoStopTimer) && nextHandle == old(nextHandle)
      ensures outcome == MicDenied ==> chunks == old(chunks) && stopping == old(stopping)
      ensures outcome == RecorderStartFailed ==> chunks == [] && !stopping
      ensures outcome == AudioSetupFailed || outcome == Started ==>
                mr != null && fresh(mr) && mediaRec == mr && recording && !stopping && chunks == []
                && mr.state == Active && mr.calls == [Start(Timeslice)]
                && mr.mimeType == (if PickMime(supported) != "" then PickMime(supported) else browserType)
      ensures outcome == AudioSetupFailed ==>
                messages == old(messages) + [Message(false, MicPermissionText)]
                && pendingFrames == old(pendingFrames) && pendingTimers == old(pendingTimers)
                && analyserLive == old(analyserLive) && lastNonSilent == old(lastNonSilent)
                && rafId == old(rafId) && autoStopTimer == old(autoStopTimer) && nextHandle == old(nextHandle)
      ensures outcome == Started ==>
                messages == old(messages) && analyserLive && lastNonSilent == now
                && rafId == old(nextHandle) && autoStopTimer == old(nextHandle) + 1
                && pendingFrames == old(pendingFrames) + {rafId}
                && pendingTimers == old(pendingTimers) + {autoStopTimer}
                && nextHandle == old(nextHandle) + 2
    {
      if outcome == MicDenied {
        messages := messages + [Message(false, MicPermissionText)];
        return null;
      }
      if outcome == RecorderStartFailed {
        chunks, stopping := [], false;
        messages := messages + [Message(false, MicPermissionText)];
        return null;
      }
      mr := OpenRecorder(supported, browserType);
      if outcome == AudioSetupFailed {
        messages := messages + [Message(false, MicPermissionText)];
        return;
      }
      ArmDetection(now);
    }

    /** The synchronous part of `startRecording` up to `setRecording(true)`:
        a recorder of the preferred type, an empty chunk list, a cleared
        latch, the recorder started with its timeslice and held. */
    method OpenRecorder(supported: string -> bool, browserType: string) returns (mr: Recorder)
      requires Valid()
      modifies this`chunks, this`stopping, this`mediaRec, this`recording
      ensures Valid()
      ensures fresh(mr) && mediaRec == mr && recording && !stopping && chunks == []
      ensures mr.state == Active && mr.calls == [Start(Timeslice)]
      ensures mr.mimeType == (if PickMime(supported) != "" then PickMime(supported) else browserType)
    {
      var prefer := PickMime(supported);
      mr := new Recorder(if prefer != "" then prefer else browserType);
      chunks := [];
      stopping := false;
      mr.Begin(Timeslice);
      mediaRec := mr;
      recording := true;
    }

    /** The silence detector's setup: the analyser, the last-voiced time, the
        first detection frame and the hard-cap timeout. */
    method ArmDetection(now: real)
      requires Valid()
      modifies this`analyserLive, this`lastNonSilent, this`rafId, this`autoStopTimer
      modifies this`pendingFrames, this`pendingTimers, this`nextHandle
      ensures Valid()
      ensures analyserLive && lastNonSilent == now
      ensures rafId == old(nextHandle) && autoStopTimer == old(nextHandle) + 1
      ensures pendingFrames == old(pendingFrames) + {rafId}
      ensures pendingTimers == old(pendingTimers) + {autoStopTimer}
      ensures nextHandle == old(nextHandle) + 2
    {
      analyserLive := true;
      lastNonSilent := now;
      rafId := nextHandle;
      pendingFrames := pendingFrames + {rafId};
      autoStopTimer := nextHandle + 1;
      pendingTimers := pendingTimers + {autoStopTimer};
      nextHandle := nextHandle + 2;
    }

    /** `mr.ondataavailable`: keeps the chunk if it has data. */
    method OnDataAvailable(data: Option<Bytes>)
      requires Valid()
      modifies this`chunks
      ensures Valid()
      ensures chunks == old(chunks) + (if data.Some? && |data.value| > 0 then [data.value] else [])
      ensures Flatten(chunks) == Flatten(old(chunks)) + (if data.Some? then data.value else [])
    {
      var before := chunks;
      if data.Some? && |data.value| > 0 {
        chunks := chunks + [data.value];
        FlattenConcat(before, [data.value]);
      }
    }

    /** `stopRecording(auto)`; `auto` is never read. Does nothing without a
        handle or once the latch is set; otherwise sets the latch, flushes
        before stopping, and always drops the handle and clears `recording`. */
    method StopRecording()
      requires Valid()
      modifies this, mediaRec
      ensures Valid()
      ensures old(mediaRec) == null || old(stopping) ==> unchanged(this)
      ensures old(mediaRec) != null && !old(stopping) ==>
                stopping && mediaRec == null && !recording
                && old(mediaRec).calls == old(mediaRec.calls) + StopCalls(old(mediaRec.state))
                && old(mediaRec).state == Inactive
      ensures messages == old(messages) && input == old(input) && sending == old(sending)
      ensures chunks == old(chunks) && lastNonSilent == old(lastNonSilent)
      ensures analyserLive == old(analyserLive) && rafId == old(rafId) && autoStopTimer == old(autoStopTimer)
      ensures pendingFrames == old(pendingFrames) && pendingTimers == old(pendingTimers)
      ensures nextHandle == old(nextHandle) && voiceExchanges == old(voiceExchanges)
    {
      var mr := mediaRec;
      if mr == null || stopping {
        return;
      }
      stopping := true;
      var _ := mr.Flush();
      if mr.state != Inactive {
        mr.Halt();
      }
      mr.ReleaseTracks();
      mediaRec := null;
      recording := false;
    }

    /** One run of `detect`, the animation-frame callback `frame`, with the
        clock and whether the analyser's frame was voiced. Without an
        analyser the loop ends; a voiced frame refreshes the last-voiced
        time; silence strictly longer than `SILENCE_MS` stops the recording
        and ends the loop; otherwise the next frame is scheduled. */
    method DetectTick(frame: nat, now: real, voiced: bool) returns (silenceExpired: bool)
      requires Valid()
      requires frame in pendingFrames
      modifies this, mediaRec
      ensures Valid()
      ensures silenceExpired <==>
                old(analyserLive) && now - (if voiced then now else old(lastNonSilent)) > SilenceMs
      ensures voiced ==> !silenceExpired
      ensures lastNonSilent == (if old(analyserLive) && voiced then now else old(lastNonSilent))
      ensures old(analyserLive) && !silenceExpired ==>
                rafId == old(nextHandle) && nextHandle == old(nextHandle) + 1
                && pendingFrames == old(pendingFrames) - {frame} + {rafId}
      ensures !old(analyserLive) || silenceExpired ==>
                rafId == old(rafId) && nextHandle == old(nextHandle)
                && pendingFrames == old(pendingFrames) - {frame}
      ensures !silenceExpired ==>
                mediaRec == old(mediaRec) && recording == old(recording) && stopping == old(stopping)
      ensures !silenceExpired && old(mediaRec) != null ==> unchanged(old(mediaRec))
      ensures silenceExpired ==> mediaRec == null && !recording
      ensures silenceExpired && old(mediaRec) != null && !old(stopping) ==>
                stopping && old(mediaRec).calls == old(mediaRec.calls) + StopCalls(old(mediaRec.state))
                && old(mediaRec).state == Inactive
      ensures silenceExpired && (old(mediaRec) == null || old(stopping)) ==> stopping == old(stopping)
      ensures messages == old(messages) && input == old(input) && sending == old(sending)
      ensures chunks == old(chunks) && analyserLive == old(analyserLive)
      ensures pendingTimers == old(pendingTimers) && autoStopTimer == old(autoStopTimer)
      ensures voiceExchanges == old(voiceExchanges)
    {
      pendingFrames := pendingFrames - {frame};
      silenceExpired := false;
      if !analyserLive {
        return;
      }
      if voiced {
        lastNonSilent := now;
      }
      if now - lastNonSilent > SilenceMs {
        silenceExpired := true;
        StopRecording();
        return;
      }
      rafId := nextHandle;
      pendingFrames := pendingFrames + {rafId};
      nextHandle := nextHandle + 1;
    }

    /** The hard-cap timeout `timer` fires: the same latched stop. The timeout
        is scheduled `MaxRecordMs` after the start; the model lets it fire
        whenever its handle is pending, without measuring that delay. */
    method HardCapTimeout(timer: nat)
      requires Valid()
      requires timer in pendingTimers
      modifies this, mediaRec
      ensures Valid()
      ensures pendingTimers == old(pendingTimers) - {timer}
      ensures mediaRec == null && !recording
      ensures old(mediaRec) != null && !old(stopping) ==>
                stopping && old(mediaRec).calls == old(mediaRec.calls) + StopCalls(old(mediaRec.state))
                && old(mediaRec).state == Inactive
      ensures old(mediaRec) == null || old(stopping) ==> stopping == old(stopping)
      ensures messages == old(messages) && input == old(input) && sending == old(sending)
      ensures chunks == old(chunks) && analyserLive == old(analyserLive) && lastNonSilent == old(lastNonSilent)
      ensures pendingFrames == old(pendingFrames) && rafId == old(rafId) && autoStopTimer == old(autoStopTimer)
      ensures nextHandle == old(nextHandle) && voiceExchanges == old(voiceExchanges)
    {
      pendingTimers := pendingTimers - {timer};
      StopRecording();
    }

    /** `mr.onstop` up to the upload: cancels the pending detection frame
        and hard cap, drops the analyser, seals the chunks into a blob typed
        `mr.mimeType` (or "audio/webm"), shows the user's voice message and
        posts the blob as `voice.<ext>`. */
    method OnStop(mr: Recorder) returns (upload: Upload)
      requires Valid()
      modifies this
      ensures Valid()
      ensures messages == old(messages) + [Message(true, VoiceUserText)]
      ensures upload.bytes == Flatten(old(chunks))
      ensures upload.blobType == BlobType(mr.mimeType)
      ensures upload.fileName == "voice." + Extension(upload.blobType)
      ensures voiceExchanges == old(voiceExchanges) + 1
      ensures !analyserLive
      ensures pendingFrames == old(pendingFrames) - {rafId}
      ensures pendingTimers == old(pendingTimers) - {autoStopTimer}
      ensures chunks == old(chunks) && input == old(input) && sending == old(sending)
      ensures mediaRec == old(mediaRec) && recording == old(recording) && stopping == old(stopping)
      ensures rafId == old(rafId) && autoStopTimer == old(autoStopTimer) && nextHandle == old(nextHandle)
      ensures lastNonSilent == old(lastNonSilent)
    {
      TearDownDetection();
      var blobType := BlobType(mr.mimeType);
      var blob := Flatten(chunks);
      messages := messages + [Message(true, VoiceUserText)];
      upload := Upload("voice." + Extension(blobType), blobType, blob);
      voiceExchanges := voiceExchanges + 1;
    }

    /** The clean-up at the head of `onstop`: the pending detection frame
        and hard-cap timeout are cancelled and the analyser is dropped. */
    method TearDownDetection()
      requires Valid()
      modifies this`pendingFrames, this`pendingTimers, this`analyserLive
      ensures Valid()
      ensures !analyserLive
      ensures pendingFrames == old(pendingFrames) - {rafId}
      ensures pendingTimers == old(pendingTimers) - {autoStopTimer}
    {
      if rafId != 0 {
        pendingFrames := pendingFrames - {rafId};
      }
      if autoStopTimer != 0 {
        pendingTimers := pendingTimers - {autoStopTimer};
      }
      analyserLive := false;
    }

    /** The voice exchange settles: the recognised text and the answer, or
        one failure message, are appended. */
    method VoiceCompletes(o: VoiceOutcome)
      requires Valid()
      requires voiceExchanges > 0
      modifies this`messages, this`voiceExchanges
      ensures Valid()
      ensures messages == old(messages) + VoiceReplyMessages(o)
      ensures |messages| == |old(messages)| + (if o.VoiceResponse? then 2 else 1)
      ensures voiceExchanges == old(voiceExchanges) - 1
    {
      messages := messages + VoiceReplyMessages(o);
      voiceExchanges := voiceExchanges - 1;
    }

    /** `send`, up to the request: ignored while a reply is awaited or when
        the trimmed input is empty; otherwise shows the user's message,
        clears the input and marks the page as sending. Recording does not
        block it (only the disabled input and button do). */
    method Send() returns (question: Option<string>)
      requires Valid()
      modifies this`messages, this`input, this`sending
      ensures Valid()
      ensures old(sending) || Trim(old(input)) == [] ==>
                question == None && messages == old(messages) && input == old(input) && sending == old(sending)
      ensures !old(sending) && Trim(old(input)) != [] ==>
                question == Some(Trim(old(input))) && input == "" && sending
                && messages == old(messages) + [Message(true, Trim(old(input)))]
    {
      var text := Trim(input);
      if text == [] || sending {
        return None;
      }
      messages := messages + [Message(true, text)];
      input := "";
      sending := true;
      question := Some(text);
    }

    /** The text exchange settles, on any path: one bot message, and the
        page is no longer sending. */
    method AskCompletes(o: AskOutcome)
      requires Valid()
      requires sending
      modifies this`messages, this`sending
      ensures Valid()
      ensures messages == old(messages) + [Message(false, AskReplyText(o))]
      ensures !sending
    {
      messages := messages + [Message(false, AskReplyText(o))];
      sending := false;
    }

    /** The microphone button: stops while recording, starts otherwise. It is
        not disabled while a text reply is awaited. */
    method MicClick(outcome: StartOutcome, supported: string -> bool, browserType: string, now: real)
      returns (mr: Recorder?)
      requires Valid()
      modifies this, mediaRec
      ensures Valid()
      ensures sending == old(sending) && input == old(input) && voiceExchanges == old(voiceExchanges)
      // while recording: the effective latched stop
      ensures old(recording) ==>
                mr == null && mediaRec == null && !recording && stopping
                && old(mediaRec).calls == old(mediaRec.calls) + StopCalls(old(mediaRec.state))
                && old(mediaRec).state == Inactive
                && messages == old(messages) && chunks == old(chunks) && lastNonSilent == old(lastNonSilent)
                && analyserLive == old(analyserLive) && rafId == old(rafId) && autoStopTimer == old(autoStopTimer)
                && pendingFrames == old(pendingFrames) && pendingTimers == old(pendingTimers)
                && nextHandle == old(nextHandle)
      // otherwise: `startRecording`, outcome by outcome
      ensures !old(recording) && (outcome == MicDenied || outcome == RecorderStartFailed) ==>
                mr == null && messages == old(messages) + [Message(false, MicPermissionText)]
                && !recording && mediaRec == null
                && pendingFrames == old(pendingFrames) && pendingTimers == old(pendingTimers)
                && analyserLive == old(analyserLive) && lastNonSilent == old(lastNonSilent)
                && rafId == old(rafId) && autoStopTimer == old(autoStopTimer) && nextHandle == old(nextHandle)
      ensures !old(recording) && outcome == MicDenied ==> chunks == old(chunks) && stopping == old(stopping)
      ensures !old(recording) && outcome == RecorderStartFailed ==> chunks == [] && !stopping
      ensures !old(recording) && (outcome == AudioSetupFailed || outcome == Started) ==>
                mr != null && fresh(mr) && mediaRec == mr && recording && !stopping && chunks == []
                && mr.state == Active && mr.calls == [Start(Timeslice)]
                && mr.mimeType == (if PickMime(supported) != "" then PickMime(supported) else browserType)
      ensures !old(recording) && outcome == AudioSetupFailed ==>
                messages == old(messages) + [Message(false, MicPermissionText)]
                && pendingFrames == old(pendingFrames) && pendingTimers == old(pendingTimers)
                && analyserLive == old(analyserLive) && lastNonSilent == old(lastNonSilent)
                && rafId == old(rafId) && autoStopTimer == old(autoStopTimer) && nextHandle == old(nextHandle)
      ensures !old(recording) && outcome == Started ==>
                messages == old(messages) && analyserLive && lastNonSilent == now
                && rafId == old(nextHandle) && autoStopTimer == old(nextHandle) + 1
                && pendingFrames == old(pendingFrames) + {rafId}
                && pendingTimers == old(pendingTimers) + {autoStopTimer}
                && nextHandle == old(nextHandle) + 2
    {
      if recording {
        StopRecording();
        mr := null;
      } else {
        mr := StartRecording(outcome, supported, browserType, now);
      }
    }
  }

  /** A manual stop racing the silence detector: the second stop finds the
      handle gone and changes nothing, and the recorder saw one flush and
      one stop. */
  method StopRace(c: ChatController, frame: nat, now: real)
    requires c.Valid() && c.recording && !c.stopping && frame in c.pendingFrames
    requires c.mediaRec != null && c.mediaRec.state == Active && c.mediaRec.calls == [Start(Timeslice)]
    modifies c, c.mediaRec
    ensures c.Valid() && !c.recording && c.mediaRec == null
    ensures old(c.mediaRec).calls == [Start(Timeslice), RequestData, Stop, StopTracks]
  {
    var mr := c.mediaRec;
    c.StopRecording();
    var _ := c.DetectTick(frame, now, false);
    assert mr.calls == [Start(Timeslice)] + StopCalls(Active);
  }

  /** The browser ends a recording on its own, then the page stops it: the
      flush throws and is swallowed, `stop()` is skipped, and the tracks are
      still stopped. */
  method StopAfterBrowserEnded(c: ChatController)
    requires c.Valid() && c.recording && !c.stopping
    requires c.mediaRec != null && c.mediaRec.calls == [Start(Timeslice)]
    modifies c, c.mediaRec
    ensures c.Valid() && !c.recording && c.mediaRec == null && c.stopping
    ensures old(c.mediaRec).calls == [Start(Timeslice), RequestData, StopTracks]
    ensures old(c.mediaRec).state == Inactive
  {
    var mr := c.mediaRec;
    mr.EndedByBrowser();
    c.StopRecording();
    assert mr.calls == [Start(Timeslice)] + StopCalls(Inactive);
  }

  /** The same race the other way round: a voiced detection frame leaves
      the recorder alone, and the manual stop after it is the one effective
      stop. */
  method VoicedFrameThenStop(c: ChatController, frame: nat, now: real)
    requires c.Valid() && c.recording && !c.stopping && frame in c.pendingFrames
    requires c.mediaRec != null && c.mediaRec.state == Active && c.mediaRec.calls == [Start(Timeslice)]
    modifies c, c.mediaRec
    ensures c.Valid() && !c.recording && c.mediaRec == null && c.stopping
    ensures old(c.mediaRec).calls == [Start(Timeslice), RequestData, Stop, StopTracks]
  {
    var mr := c.mediaRec;
    var _ := c.DetectTick(frame, now, true);
    c.StopRecording();
    assert mr.calls == [Start(Timeslice)] + StopCalls(Active);
  }
}
