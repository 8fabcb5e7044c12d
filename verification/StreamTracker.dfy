/**
 The rule that at most one audio stream is open in a direction at a time.
 internal/protocol/stream_tracker.go and the payload checks of internal/protocol/types.go:176-202.
 */
module StreamTracker {
  import opened Common
  import opened AudioFormats

  datatype AudioStart = AudioStart(streamId: string, codec: string, sampleRateHz: int, channels: int) {
    /** validateTypedPayload */
    predicate Valid() {
      streamId != "" && codec == PCM_S16LE && sampleRateHz > 0 && channels > 0
    }
  }

  datatype AudioStop = AudioStop(streamId: string, lastSeq: int) {
    predicate Valid() {
      streamId != "" && lastSeq >= 0
    }
  }

  /** The open stream, if any, and the number of frames received on it. */
  datatype Tracked = Tracked(active: Option<AudioStart>, frameCount: nat)

  const IDLE := Tracked(None, 0)

  predicate CanStart(t: Tracked, p: AudioStart) {
    t.active.None? && p.Valid()
  }

  /** A stop closes the stream it names, and only with the right number of frames. */
  predicate CanStop(t: Tracked, p: AudioStop) {
    t.active.Some? && p.streamId == t.active.value.streamId && p.lastSeq == t.frameCount
  }

  class Tracker {
    var active: Option<AudioStart>
    var frameCount: nat

    constructor ()
      ensures Value() == IDLE
    {
      active, frameCount := None, 0;
    }

    function Value(): Tracked
      reads this
    {
      Tracked(active, frameCount)
    }

    method Start(payload: AudioStart) returns (ok: bool)
      modifies this
      ensures ok <==> CanStart(old(Value()), payload)
      ensures Value() == if ok then Tracked(Some(payload), 0) else old(Value())
    {
      if active.Some? || !payload.Valid() {
        return false;
      }
      active, frameCount := Some(payload), 0;
      ok := true;
    }

    method AddFrame() returns (ok: bool)
      modifies this
      ensures ok <==> old(active).Some?
      ensures Value() == if ok then Tracked(old(active), old(frameCount) + 1) else old(Value())
    {
      if active.None? {
        return false;
      }
      frameCount := frameCount + 1;
      ok := true;
    }

    method Stop(payload: AudioStop) returns (ok: bool)
      modifies this
      ensures ok <==> CanStop(old(Value()), payload)
      ensures Value() == if ok then IDLE else old(Value())
    {
      if active.None? {
        return false;
      }
      if payload.streamId != active.value.streamId {
        return false;
      }
      if payload.lastSeq != frameCount {
        return false;
      }
      active, frameCount := None, 0;
      ok := true;
    }
  }
}
