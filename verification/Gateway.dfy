/**
 The inbound half of the gateway's event loop: hello, audio.start, binary frames, audio.stop.
 internal/gateway/handler.go:91-399. A run is the list of frames read from one connection.
 */
module Gateway {
  import opened Common
  import opened Bytes
  import opened AudioFormats
  import opened Text
  import opened StreamTracker

  /** The audio defaults of the device that opened the connection. */
  datatype Device = Device(codec: string, sampleRateHz: int)

  /** What may be read. An audio event whose payload is not valid fails to decode as a whole. */
  datatype Inbound =
    | Undecodable
    | Hello(valid: bool, repliesSent: bool)
    | Start(start: AudioStart)
    | Stop(stop: AudioStop)
    | OtherEvent
    | Binary(data: seq<byte>)
    | OtherFrame
    | Close

  /** The request handed to the pipeline. */
  datatype Turn = Turn(streamId: string, format: AudioFormat, audio: seq<byte>)

  datatype State = State(helloSeen: bool, id: string, format: AudioFormat, audio: seq<byte>, tracker: Tracked, closed: bool)

  const INITIAL := State(false, "", NO_FORMAT, [], IDLE, false)

  function WithoutStream(s: State): State {
    s.(id := "", format := NO_FORMAT, audio := [], tracker := IDLE)
  }

  function FallbackString(value: string, fallback: string): string {
    if Trim(value) != "" then value else fallback
  }

  function FallbackInt(value: int, fallback: int): int {
    if value > 0 then value else fallback
  }

  function FormatOf(p: AudioStart, device: Device): AudioFormat {
    AudioFormat(FallbackString(p.codec, device.codec), FallbackInt(p.sampleRateHz, device.sampleRateHz),
                FallbackInt(p.channels, 1))
  }

  /** What a start leaves out is taken from the device; but validation lets no start leave anything out. */
  lemma DefaultsAreIdle(p: AudioStart, device: Device)
    ensures var f := FormatOf(p, device);
            && f.codec == (if AllSpace(p.codec) then device.codec else p.codec)
            && f.sampleRateHz == (if p.sampleRateHz <= 0 then device.sampleRateHz else p.sampleRateHz)
            && f.channels == (if p.channels <= 0 then 1 else p.channels)
    ensures p.Valid() ==> FormatOf(p, device) == AudioFormat("pcm_s16le", p.sampleRateHz, p.channels)
  {
    TrimBlank(p.codec);
    assert !IsSpace("pcm_s16le"[0]);
  }

  /** One turn of the loop. */
  function Step(s: State, e: Inbound, device: Device): (State, seq<Turn>) {
    if s.closed then (s, [])
    else
      match e
      case Undecodable => (s, [])
      case Hello(valid, repliesSent) => (if valid then s.(helloSeen := true, closed := !repliesSent) else s, [])
      case Start(p) =>
        if !p.Valid() || !s.helloSeen || !CanStart(s.tracker, p) then (s, [])
        else (s.(id := p.streamId, format := FormatOf(p, device), audio := [], tracker := Tracked(Some(p), 0)), [])
      case Stop(p) =>
        if !p.Valid() || s.id == "" then (s, [])
        else if !CanStop(s.tracker, p) then (WithoutStream(s), [])
        else (WithoutStream(s), [Turn(s.id, s.format, s.audio)])
      case OtherEvent => (s, [])
      case Binary(data) =>
        if s.id == "" || s.tracker.active.None? then (s, [])
        else (s.(tracker := s.tracker.(frameCount := s.tracker.frameCount + 1), audio := s.audio + data), [])
      case OtherFrame => (s, [])
      case Close => (s.(closed := true), [])
  }

  ghost function After(run: seq<Inbound>, device: Device): State {
    if run == [] then INITIAL else Step(After(run[..|run| - 1], device), run[|run| - 1], device).0
  }

  /** Everything handed to the pipeline during a run. */
  ghost function Turns(run: seq<Inbound>, device: Device): seq<Turn> {
    if run == [] then []
    else
      var before := run[..|run| - 1];
      Turns(before, device) + Step(After(before, device), run[|run| - 1], device).1
  }

  // ---- What a run says by itself ----

  ghost predicate Ended(run: seq<Inbound>) {
    exists i :: 0 <= i < |run| && (run[i].Close? || (run[i].Hello? && run[i].valid && !run[i].repliesSent))
  }

  ghost predicate Greeted(run: seq<Inbound>) {
    exists i :: 0 <= i < |run| && run[i].Hello? && run[i].valid
  }

  /** The position of the start event of the stream open after a run that has not ended. */
  ghost function OpenAt(run: seq<Inbound>): Option<nat> {
    if run == [] then None
    else
      var before, e := run[..|run| - 1], run[|run| - 1];
      if e.Start? && e.start.Valid() && Greeted(before) && OpenAt(before).None? then Some(|before|)
      else if e.Stop? && e.stop.Valid() then None
      else OpenAt(before)
  }

  /** The payloads of the binary frames, in order. */
  ghost function Payloads(run: seq<Inbound>): seq<seq<byte>> {
    if run == [] then []
    else Payloads(run[..|run| - 1]) + if run[|run| - 1].Binary? then [run[|run| - 1].data] else []
  }

  /** The frames that arrived after position i. */
  ghost function FramesSince(run: seq<Inbound>, i: nat): seq<seq<byte>>
    requires i < |run|
  {
    Payloads(run[i + 1..])
  }

  /** The turn that the last event of a run completes: the stop of the open stream, with the right count. */
  ghost predicate Completes(run: seq<Inbound>)
    requires run != []
  {
    var before, e := run[..|run| - 1], run[|run| - 1];
    && !Ended(before) && e.Stop? && OpenAt(before).Some?
    && var i := OpenAt(before).value;
       && i < |before| && before[i].Start?
       && e.stop.streamId == before[i].start.streamId
       && e.stop.lastSeq == |FramesSince(before, i)|
  }

  /** The turn of the stream that began with p and has brought these frames. */
  function TurnFor(p: AudioStart, frames: seq<seq<byte>>): Turn {
    Turn(p.streamId, AudioFormat(p.codec, p.sampleRateHz, p.channels), Flatten(frames))
  }

  ghost function TurnOf(run: seq<Inbound>): Turn
    requires run != [] && Completes(run)
  {
    var before := run[..|run| - 1];
    var i := OpenAt(before).value;
    TurnFor(before[i].start, FramesSince(before, i))
  }

  ghost function ExpectedTurns(run: seq<Inbound>): seq<Turn> {
    if run == [] then []
    else ExpectedTurns(run[..|run| - 1]) + if Completes(run) then [TurnOf(run)] else []
  }

  // ---- The loop's state is what the run says ----

  /** The state while the stream that began with p is open and has brought some frames. */
  ghost predicate Receiving(s: State, p: AudioStart, frames: seq<seq<byte>>) {
    && p.Valid() && s.helloSeen
    && Turn(s.id, s.format, s.audio) == TurnFor(p, frames)
    && s.tracker == Tracked(Some(p), |frames|)
  }

  ghost predicate Waiting(s: State) {
    s.id == "" && s.tracker == IDLE && s.audio == [] && s.format == NO_FORMAT
  }

  /** The tracker is active, and its stream id set, exactly while a stream is open, which takes a hello. */
  ghost predicate Reflects(s: State, run: seq<Inbound>) {
    && (s.helloSeen <==> Greeted(run))
    && match OpenAt(run)
       case None => Waiting(s)
       case Some(i) => i < |run| && run[i].Start? && Receiving(s, run[i].start, FramesSince(run, i))
  }

  lemma EndedStep(run: seq<Inbound>)
    requires run != []
    ensures var before, e := run[..|run| - 1], run[|run| - 1];
            Ended(run) <==> Ended(before) || e.Close? || (e.Hello? && e.valid && !e.repliesSent)
    ensures var before, e := run[..|run| - 1], run[|run| - 1];
            Greeted(run) <==> Greeted(before) || (e.Hello? && e.valid)
  {
    var before := run[..|run| - 1];
    assert forall i :: 0 <= i < |before| ==> before[i] == run[i];
  }

  lemma FramesStep(run: seq<Inbound>, i: nat)
    requires run != [] && i < |run| - 1
    ensures var before, e := run[..|run| - 1], run[|run| - 1];
            FramesSince(run, i) == if e.Binary? then FramesSince(before, i) + [e.data] else FramesSince(before, i)
  {
    var before, tail := run[..|run| - 1], run[i + 1..];
    assert tail[..|tail| - 1] == before[i + 1..];
  }

  lemma CodecIsNotBlank()
    ensures Trim(PCM_S16LE) != ""
  {
    var c := PCM_S16LE;
    assert !IsSpace(c[0]);
    TrimBlank(c);
  }

  lemma ReceivingStep(s: State, p: AudioStart, frames: seq<seq<byte>>, e: Inbound, device: Device)
    requires !s.closed && Receiving(s, p, frames)
    ensures var (next, turns) := Step(s, e, device);
            && (if e.Binary? then Receiving(next, p, frames + [e.data])
                else if e.Stop? && e.stop.Valid() then Waiting(next)
                else Receiving(next, p, frames))
            && turns == if e.Stop? && e.stop.streamId == p.streamId && e.stop.lastSeq == |frames|
                        then [TurnFor(p, frames)] else []
  {
    if e.Binary? {
      FlattenSnoc(frames, e.data);
    }
  }

  lemma WaitingStep(s: State, e: Inbound, device: Device)
    requires !s.closed && Waiting(s)
    ensures var (next, turns) := Step(s, e, device);
            && (if e.Start? && e.start.Valid() && s.helloSeen then Receiving(next, e.start, []) else Waiting(next))
            && turns == []
  {
    if e.Start? && e.start.Valid() {
      CodecIsNotBlank();
    }
  }

  lemma ReflectsStep(run: seq<Inbound>, s: State, device: Device)
    requires run != [] && !Ended(run[..|run| - 1]) && !s.closed
    requires Reflects(s, run[..|run| - 1])
    ensures Reflects(Step(s, run[|run| - 1], device).0, run)
  {
    var before, e := run[..|run| - 1], run[|run| - 1];
    EndedStep(run);
    if OpenAt(before).None? {
      WaitingStep(s, e, device);
      assert run[|run|..] == [];
    } else {
      var i := OpenAt(before).value;
      FramesStep(run, i);
      ReceivingStep(s, before[i].start, FramesSince(before, i), e, device);
    }
  }

  lemma {:induction false} StateReflectsRun(run: seq<Inbound>, device: Device)
    ensures After(run, device).closed <==> Ended(run)
    ensures !Ended(run) ==> Reflects(After(run, device), run)
  {
    if run != [] {
      var before := run[..|run| - 1];
      StateReflectsRun(before, device);
      EndedStep(run);
      if !Ended(before) {
        ReflectsStep(run, After(before, device), device);
      }
    }
  }

  lemma TurnStep(run: seq<Inbound>, s: State, device: Device)
    requires run != [] && (s.closed <==> Ended(run[..|run| - 1]))
    requires !s.closed ==> Reflects(s, run[..|run| - 1])
    ensures Step(s, run[|run| - 1], device).1 == if Completes(run) then [TurnOf(run)] else []
  {
    var before, e := run[..|run| - 1], run[|run| - 1];
    if !s.closed {
      if OpenAt(before).None? {
        WaitingStep(s, e, device);
      } else {
        var i := OpenAt(before).value;
        ReceivingStep(s, before[i].start, FramesSince(before, i), e, device);
      }
    }
  }

  /**
   Whatever is read, in whatever order, accepted or rejected: what reaches the pipeline is exactly, for each stop
   that matches the open stream and counts its frames, the concatenation of the frames since the matching start.
   */
  lemma {:induction false} PipelineHearsExactlyTheFrames(run: seq<Inbound>, device: Device)
    ensures Turns(run, device) == ExpectedTurns(run)
  {
    if run != [] {
      var before := run[..|run| - 1];
      PipelineHearsExactlyTheFrames(before, device);
      StateReflectsRun(before, device);
      TurnStep(run, After(before, device), device);
    }
  }

  /** A stop that does not match closes the stream all the same, and its audio is lost. */
  lemma MismatchedStopLosesTheStream(run: seq<Inbound>, stop: AudioStop, device: Device)
    requires !Ended(run) && OpenAt(run).Some? && stop.Valid()
    requires !Completes(run + [Stop(stop)])
    ensures Turns(run + [Stop(stop)], device) == Turns(run, device)
    ensures After(run + [Stop(stop)], device).id == ""
  {
    var longer := run + [Stop(stop)];
    assert longer[..|longer| - 1] == run;
    StateReflectsRun(run, device);
    PipelineHearsExactlyTheFrames(longer, device);
    PipelineHearsExactlyTheFrames(run, device);
  }

  // ---- The loop ----

  /** ServeHTTP after the upgrade, over the frames that arrive; the tracker is an object the loop updates. */
  method ServeSession(run: seq<Inbound>, device: Device) returns (turns: seq<Turn>)
    ensures turns == ExpectedTurns(run)
  {
    turns := [];
    var tracker := new Tracker();
    var id, format, audio := "", NO_FORMAT, [];
    var helloSeen, closed := false, false;
    for i := 0 to |run|
      invariant fresh(tracker)
      invariant State(helloSeen, id, format, audio, tracker.Value(), closed) == After(run[..i], device)
      invariant turns == Turns(run[..i], device)
    {
      assert run[..i + 1][..i] == run[..i];
      if closed {
        continue;
      }
      match run[i] {
        case Undecodable =>
        case Hello(valid, repliesSent) =>
          if valid {
            helloSeen := true;
            if !repliesSent {
              closed := true;
            }
          }
        case Start(p) =>
          if p.Valid() && helloSeen {
            var ok := tracker.Start(p);
            if ok {
              id, format, audio := p.streamId, FormatOf(p, device), [];
            }
          }
        case Stop(p) =>
          if p.Valid() && id != "" {
            var ok := tracker.Stop(p);
            if ok {
              turns := turns + [Turn(id, format, audio)];
            }
            id, format, audio := "", NO_FORMAT, [];
            tracker := new Tracker();
          }
        case OtherEvent =>
        case Binary(data) =>
          if id != "" {
            var ok := tracker.AddFrame();
            if ok {
              audio := audio + data;
            }
          }
        case OtherFrame =>
        case Close =>
          closed := true;
      }
    }
    assert run[..|run|] == run;
    PipelineHearsExactlyTheFrames(run, device);
  }
}
