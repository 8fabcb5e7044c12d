/**
 The fields of the realtime voice session that its input handlers update, and those handlers.
 internal/voicews/session.go:108-134, 470-662, 743-751, 2031-2071 and 2151-2182.
 */
module VoiceReader {
  import opened Common
  import opened Bytes
  import opened AudioFormats
  import opened StreamTracker
  import opened Vad
  import opened VoiceSession
  import PartialAsr

  class Session {
    var inboundTracker: Tracked
    var inboundFormat: AudioFormat
    var inboundAudio: seq<byte>
    var inboundSeq: nat
    var inputEchoGuard: bool

    var speechActive: bool
    var silenceBytes: nat
    var segmentSeq: nat
    var activeSegment: Option<nat>
    var segmentStartByte: nat
    var segmentStartMs: nat
    var segmentPeakLevel: real

    var partialInFlight: bool
    var partialCancel: Option<nat>
    var partialRunID: nat
    var lastPartialAt: Option<int>
    var lastPartialSize: nat

    constructor ()
      ensures Value() == IDLE_VOICE
    {
      inboundTracker := IDLE;
      inboundFormat, inboundAudio, inboundSeq, inputEchoGuard := NO_FORMAT, [], 0, false;
      speechActive, silenceBytes, segmentSeq, activeSegment := false, 0, 0, None;
      segmentStartByte, segmentStartMs, segmentPeakLevel := 0, 0, 0.0;
      partialInFlight, partialCancel, partialRunID := false, None, 0;
      lastPartialAt, lastPartialSize := None, 0;
    }

    function VadValue(): Vad
      reads this
    {
      Vad(speechActive, silenceBytes, segmentSeq, activeSegment, segmentStartByte, segmentStartMs, segmentPeakLevel)
    }

    function SlotValue(): PartialAsr.Slot
      reads this
    {
      PartialAsr.Slot(partialRunID, partialInFlight, partialCancel)
    }

    function Value(): Voice
      reads this
    {
      Voice(inboundTracker, inboundFormat, inboundAudio, inboundSeq, inputEchoGuard, VadValue(), SlotValue(),
            lastPartialAt, lastPartialSize)
    }

    method CancelPartialASRLocked() returns (cancel: Option<nat>)
      modifies this`partialRunID, this`partialCancel, this`partialInFlight
      ensures SlotValue() == old(SlotValue()).Cancelled() && cancel == old(partialCancel)
    {
      cancel := partialCancel;
      partialRunID := partialRunID + 1;
      partialCancel := None;
      partialInFlight := false;
    }

    method CompleteActiveSegmentLocked(endByte: nat, endLevel: real) returns (completed: Option<Segment>)
      modifies this`activeSegment, this`segmentStartByte, this`segmentStartMs, this`segmentPeakLevel
      ensures (VadValue(), completed)
              == CompleteActive(old(VadValue()), ToClock(inboundFormat), inboundAudio, endByte, endLevel)
    {
      if activeSegment.None? {
        return None;
      }
      var startByte, end := segmentStartByte, endByte;
      if end > |inboundAudio| {
        end := |inboundAudio|;
      }
      if end < startByte {
        end := startByte;
      }
      var audio := if end <= |inboundAudio| then inboundAudio[startByte..end] else [];
      completed := Some(Segment(activeSegment.value, audio, segmentStartMs, Milliseconds(inboundFormat, end), endLevel,
                                segmentPeakLevel));
      activeSegment := None;
      segmentStartByte := 0;
      segmentStartMs := 0;
      segmentPeakLevel := 0.0;
    }

    /** What an accepted start and a cancelled input forget about partial transcriptions. */
    method ForgetPartials()
      modifies this`partialInFlight, this`partialCancel, this`lastPartialAt, this`lastPartialSize
      ensures SlotValue() == PartialAsr.Slot(partialRunID, false, None)
      ensures lastPartialAt == None && lastPartialSize == 0
    {
      partialInFlight, partialCancel := false, None;
      lastPartialAt, lastPartialSize := None, 0;
    }

    method ForgetSegments()
      modifies this`speechActive, this`silenceBytes, this`segmentSeq, this`activeSegment, this`segmentStartByte,
        this`segmentStartMs, this`segmentPeakLevel
      ensures VadValue() == QUIET
    {
      speechActive, silenceBytes, segmentSeq, activeSegment := false, 0, 0, None;
      segmentStartByte, segmentStartMs, segmentPeakLevel := 0, 0, 0.0;
    }

    method ForgetAudio()
      modifies this`inboundTracker, this`inboundAudio, this`inboundSeq, this`inputEchoGuard
      ensures inboundTracker == IDLE && inboundAudio == [] && inboundSeq == 0 && !inputEchoGuard
    {
      inboundTracker, inboundAudio, inboundSeq, inputEchoGuard := IDLE, [], 0, false;
    }

    /** The second critical section of audio.start, once the tracker has accepted it. */
    method OpenStream(start: AudioStart, guarded: bool)
      modifies this
      ensures Value() == Voice(Tracked(Some(start), 0), FormatOf(start), [], 0, guarded, QUIET,
                               old(SlotValue()).Cancelled(), None, 0)
    {
      ForgetSegments();
      ForgetPartials();
      partialRunID := partialRunID + 1;
      assert SlotValue() == old(SlotValue()).Cancelled() && VadValue() == QUIET;
      ForgetAudio();
      inboundTracker := Tracked(Some(start), 0);
      inboundFormat := AudioFormat(start.codec, start.sampleRateHz, start.channels);
      inputEchoGuard := guarded;
    }

    method HandleAudioStart(start: AudioStart, autoRespond: bool, now: int, playbackEchoUntil: int)
      modifies this
      ensures Value() == OnStart(old(Value()), Start(start, autoRespond, now, playbackEchoUntil))
    {
      if !start.Valid() {
        return;
      }
      var _ := CancelPartialASRLocked();
      if inboundTracker.active.Some? {
        return;
      }
      OpenStream(start, autoRespond && now < playbackEchoUntil);
    }

    /** The voice activity part of a binary frame; inboundAudio already ends with it. */
    method Listen(chunk: Chunk, chunkStartByte: nat) returns (events: seq<VadEvent>, completed: Option<Segment>)
      requires |inboundAudio| == chunkStartByte + |chunk.data|
      modifies this`speechActive, this`silenceBytes, this`segmentSeq, this`activeSegment, this`segmentStartByte,
        this`segmentStartMs, this`segmentPeakLevel
      ensures Heard(VadValue(), events, completed)
              == HearChunk(old(VadValue()), ToClock(inboundFormat), inboundAudio, chunk)
    {
      events, completed := [], None;
      if chunk.Speaking() {
        silenceBytes := 0;
        if !speechActive {
          speechActive := true;
          events := [SpeechStarted];
          segmentSeq := segmentSeq + 1;
          activeSegment := Some(segmentSeq);
          segmentStartByte := chunkStartByte;
          segmentStartMs := Milliseconds(inboundFormat, chunkStartByte);
          segmentPeakLevel := chunk.level;
        }
      } else if speechActive {
        silenceBytes := silenceBytes + |chunk.data|;
        if LastsAtLeast(inboundFormat, silenceBytes, SILENCE_RELEASE_MS) {
          speechActive := false;
          silenceBytes := 0;
          events := [SpeechStopped];
          completed := CompleteActiveSegmentLocked(|inboundAudio|, chunk.level);
        }
      }
      if speechActive && chunk.level > segmentPeakLevel {
        segmentPeakLevel := chunk.level;
      }
    }

    /** A frame joins the open stream and is listened to. */
    method Receive(chunk: Chunk) returns (events: seq<VadEvent>, completed: Option<Segment>)
      modifies this`inboundTracker, this`inboundAudio, this`inboundSeq, this`speechActive, this`silenceBytes,
        this`segmentSeq, this`activeSegment, this`segmentStartByte, this`segmentStartMs, this`segmentPeakLevel
      ensures inboundTracker == old(inboundTracker).(frameCount := old(inboundTracker).frameCount + 1)
      ensures inboundAudio == old(inboundAudio) + chunk.data && inboundSeq == old(inboundSeq) + 1
      ensures Heard(VadValue(), events, completed)
              == HearChunk(old(VadValue()), ToClock(inboundFormat), inboundAudio, chunk)
    {
      inboundTracker := inboundTracker.(frameCount := inboundTracker.frameCount + 1);
      var chunkStartByte := |inboundAudio|;
      inboundAudio := inboundAudio + chunk.data;
      inboundSeq := inboundSeq + 1;
      events, completed := Listen(chunk, chunkStartByte);
    }

    method LaunchPartial(now: int)
      modifies this`partialRunID, this`partialInFlight, this`partialCancel, this`lastPartialAt, this`lastPartialSize
      ensures SlotValue() == old(SlotValue()).Launched()
      ensures lastPartialAt == Some(now) && lastPartialSize == |inboundAudio|
    {
      partialRunID := partialRunID + 1;
      partialInFlight := true;
      partialCancel := Some(partialRunID);
      lastPartialAt := Some(now);
      lastPartialSize := |inboundAudio|;
    }

    method HandleAudioChunk(chunk: Chunk, now: int, configured: bool) returns (out: Output)
      modifies this
      ensures (Value(), out) == OnFrame(old(Value()), Frame(chunk, now, configured))
    {
      out := NOTHING;
      if inboundTracker.active.None? {
        return;
      }
      var events, completed := Receive(chunk);
      out := Output(events, ListOf(completed), [], []);
      var canPartial :=
        && configured
        && !inputEchoGuard
        && |inboundAudio| > 0
        && !partialInFlight
        && (lastPartialAt.None? || now - lastPartialAt.value >= PARTIAL_MIN_WINDOW)
        && LastsAtLeast(inboundFormat, |inboundAudio| - lastPartialSize, PARTIAL_MIN_GROWTH_MS);
      assert canPartial == CanPartial(old(Value()), |inboundAudio|, now, configured);
      ghost var vad := VadValue();
      if canPartial {
        LaunchPartial(now);
        assert VadValue() == vad;
        out := out.(partials := [Partial(partialRunID, now, inboundFormat, inboundAudio)]);
      }
    }

    /** What a matching stop does to the session. */
    method CloseStream() returns (completed: Option<Segment>)
      modifies this`inboundTracker, this`inboundAudio, this`inboundSeq, this`inputEchoGuard, this`activeSegment,
        this`segmentStartByte, this`segmentStartMs, this`segmentPeakLevel, this`partialRunID, this`partialCancel,
        this`partialInFlight
      ensures (VadValue(), completed)
              == CompleteActive(old(VadValue()), ToClock(inboundFormat), old(inboundAudio), |old(inboundAudio)|, 0.0)
      ensures SlotValue() == old(SlotValue()).Cancelled()
      ensures inboundTracker == IDLE && inboundAudio == [] && inboundSeq == 0 && !inputEchoGuard
    {
      completed := CompleteActiveSegmentLocked(|inboundAudio|, 0.0);
      ghost var vad := VadValue();
      var _ := CancelPartialASRLocked();
      ForgetAudio();
      assert VadValue() == vad;
    }

    method HandleAudioStop(stop: AudioStop, configured: bool) returns (out: Output)
      modifies this
      ensures (Value(), out) == OnStop(old(Value()), Stop(stop, configured))
    {
      out := NOTHING;
      if !CanStop(inboundTracker, stop) {
        return;
      }
      var audio, guarded := inboundAudio, inputEchoGuard;
      var completed := CloseStream();
      out := out.(segments := ListOf(completed));
      if guarded {
        out := out.(verdicts := [EchoSuppressed]);
      } else if !configured {
        out := out.(verdicts := [NotConfigured]);
      } else {
        out := out.(verdicts := [Transcribe(stop.streamId, inboundFormat, audio)]);
      }
    }

    method CancelInput()
      modifies this
      ensures Value() == OnCancel(old(Value()))
    {
      var _ := CancelPartialASRLocked();
      inboundTracker := IDLE;
      inboundAudio, inboundSeq := [], 0;
      speechActive, silenceBytes := false, 0;
      assert VadValue() == old(VadValue()).(speechActive := false, silenceBytes := 0);
      ForgetPartials();
      assert SlotValue() == old(SlotValue()).Cancelled();
    }

    /** The deferred end of a partial transcription. */
    method FinishPartial(id: nat)
      modifies this`partialInFlight, this`partialCancel
      ensures Value() == old(Value()).(slot := old(SlotValue()).Returned(id))
    {
      if partialRunID == id {
        partialInFlight, partialCancel := false, None;
      }
    }
  }

  /** The session over everything that happens to it, one event after another. */
  method Serve(run: seq<Inbound>) returns (verdicts: seq<Verdict>)
    ensures verdicts == ExpectedVerdicts(run)
  {
    var s := new Session();
    verdicts := [];
    for i := 0 to |run|
      invariant fresh(s)
      invariant s.Value() == VoiceSession.After(run[..i]) && verdicts == Verdicts(run[..i])
    {
      assert run[..i + 1][..i] == run[..i];
      var out := NOTHING;
      match run[i] {
        case Start(start, autoRespond, now, playbackEchoUntil) =>
          s.HandleAudioStart(start, autoRespond, now, playbackEchoUntil);
        case Frame(chunk, now, configured) =>
          out := s.HandleAudioChunk(chunk, now, configured);
        case Stop(stop, configured) =>
          out := s.HandleAudioStop(stop, configured);
        case InputCancel =>
          s.CancelInput();
        case PartialDone(id) =>
          s.FinishPartial(id);
        case Other =>
      }
      verdicts := verdicts + out.verdicts;
    }
    assert run[..|run|] == run;
    AsrHearsExactlyTheFrames(run);
  }
}
