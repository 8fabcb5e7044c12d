/**
 The inbound half of the realtime voice session: audio.start, binary frames, audio.stop and input.cancel, with voice
 activity detection and partial transcription running beside the stream.
 internal/voicews/session.go:470-662, 743-751, 2031-2071 and 2151-2182.
 */
module VoiceSession {
  import opened Common
  import opened Bytes
  import opened AudioFormats
  import opened StreamTracker
  import opened Vad
  import opened PartialAsr

  /** Times are in nanoseconds. */
  const PARTIAL_MIN_WINDOW := 1_500_000_000
  const PARTIAL_MIN_GROWTH_MS := 1200

  /** What the session reacts to; configured says whether an ASR client is set at that moment. */
  datatype Inbound =
    | Start(start: AudioStart, autoRespond: bool, now: int, playbackEchoUntil: int)
    | Frame(chunk: Chunk, now: int, configured: bool)
    | Stop(stop: AudioStop, configured: bool)
    | InputCancel
    | PartialDone(id: nat)
    | Other
  {
    /** Input that begins while the assistant's own reply may still be playing is not transcribed. */
    predicate EchoGuard()
      requires Start?
    {
      autoRespond && now < playbackEchoUntil
    }
  }

  /** A partial transcription that a frame starts, with its snapshot of the audio. */
  datatype Partial = Partial(id: nat, at: int, format: AudioFormat, audio: seq<byte>)

  /** What an accepted audio.stop leads to. */
  datatype Verdict = Transcribe(streamId: string, format: AudioFormat, audio: seq<byte>) | EchoSuppressed | NotConfigured

  datatype Output = Output(events: seq<VadEvent>, segments: seq<Segment>, partials: seq<Partial>, verdicts: seq<Verdict>)

  const NOTHING := Output([], [], [], [])

  function Plus(a: Output, b: Output): Output {
    Output(a.events + b.events, a.segments + b.segments, a.partials + b.partials, a.verdicts + b.verdicts)
  }

  datatype Voice = Voice(tracker: Tracked, format: AudioFormat, audio: seq<byte>, inboundSeq: nat, echoGuard: bool, vad: Vad,
                         slot: Slot, lastPartialAt: Option<int>, lastPartialSize: nat)

  const IDLE_VOICE := Voice(IDLE, NO_FORMAT, [], 0, false, QUIET, PartialAsr.INITIAL.slot, None, 0)

  function FormatOf(p: AudioStart): AudioFormat {
    AudioFormat(p.codec, p.sampleRateHz, p.channels)
  }

  function OnStart(s: Voice, e: Inbound): Voice
    requires e.Start?
  {
    if !e.start.Valid() then s
    else if !CanStart(s.tracker, e.start) then s.(slot := s.slot.Cancelled())
    else Voice(Tracked(Some(e.start), 0), FormatOf(e.start), [], 0, e.EchoGuard(), QUIET,
               s.slot.Cancelled().Cancelled(), None, 0)
  }

  /** canPartial, for the audio that already ends with the frame. */
  predicate CanPartial(s: Voice, size: nat, now: int, configured: bool) {
    && configured && !s.echoGuard && size > 0 && !s.slot.inFlight
    && (s.lastPartialAt.None? || now - s.lastPartialAt.value >= PARTIAL_MIN_WINDOW)
    && LastsAtLeast(s.format, size - s.lastPartialSize, PARTIAL_MIN_GROWTH_MS)
  }

  function OnFrame(s: Voice, e: Inbound): (Voice, Output)
    requires e.Frame?
  {
    if s.tracker.active.None? then (s, NOTHING)
    else
      var audio := s.audio + e.chunk.data;
      var h := HearChunk(s.vad, ToClock(s.format), audio, e.chunk);
      var next := s.(tracker := s.tracker.(frameCount := s.tracker.frameCount + 1), audio := audio,
                     inboundSeq := s.inboundSeq + 1, vad := h.vad);
      if CanPartial(s, |audio|, e.now, e.configured) then
        (next.(slot := s.slot.Launched(), lastPartialAt := Some(e.now), lastPartialSize := |audio|),
         Output(h.events, ListOf(h.completed), [Partial(s.slot.runID + 1, e.now, s.format, audio)], []))
      else (next, Output(h.events, ListOf(h.completed), [], []))
  }

  function OnStop(s: Voice, e: Inbound): (Voice, Output)
    requires e.Stop?
  {
    if !CanStop(s.tracker, e.stop) then (s, NOTHING)
    else
      var (vad, completed) := CompleteActive(s.vad, ToClock(s.format), s.audio, |s.audio|, 0.0);
      (s.(tracker := IDLE, audio := [], inboundSeq := 0, echoGuard := false, vad := vad, slot := s.slot.Cancelled()),
       Output([], ListOf(completed), [], [VerdictOf(s, e)]))
  }

  function VerdictOf(s: Voice, e: Inbound): Verdict
    requires e.Stop?
  {
    if s.echoGuard then EchoSuppressed
    else if !e.configured then NotConfigured
    else Transcribe(e.stop.streamId, s.format, s.audio)
  }

  function OnCancel(s: Voice): Voice {
    s.(tracker := IDLE, audio := [], inboundSeq := 0, vad := s.vad.(speechActive := false, silenceBytes := 0),
       slot := s.slot.Cancelled(), lastPartialAt := None, lastPartialSize := 0)
  }

  /** A cancelled input leaves nothing behind, but for the format and the number of the last segment. */
  lemma CancelForgets(s: Voice)
    ensures var t := OnCancel(s);
            && t.tracker == IDLE && t.audio == [] && t.inboundSeq == 0 && !t.vad.speechActive && t.vad.silenceBytes == 0
            && !t.slot.inFlight && t.lastPartialAt.None? && t.lastPartialSize == 0 && t.vad.segmentSeq == s.vad.segmentSeq
  {
  }

  function Step(s: Voice, e: Inbound): (Voice, Output) {
    match e
    case Start(_, _, _, _) => (OnStart(s, e), NOTHING)
    case Frame(_, _, _) => OnFrame(s, e)
    case Stop(_, _) => OnStop(s, e)
    case InputCancel => (OnCancel(s), NOTHING)
    case PartialDone(id) => (s.(slot := s.slot.Returned(id)), NOTHING)
    case Other => (s, NOTHING)
  }

  ghost function After(run: seq<Inbound>): Voice {
    if run == [] then IDLE_VOICE else Step(After(run[..|run| - 1]), run[|run| - 1]).0
  }

  /** What the last event of a run leads to. */
  ghost function LastOutput(run: seq<Inbound>): Output
    requires run != []
  {
    Step(After(run[..|run| - 1]), run[|run| - 1]).1
  }

  // ---- What a run says by itself ----

  /** The position of the start event of the stream that is open after a run. */
  ghost function OpenAt(run: seq<Inbound>): Option<nat> {
    if run == [] then None
    else
      var before, e := run[..|run| - 1], run[|run| - 1];
      if e.Start? && e.start.Valid() && OpenAt(before).None? then Some(|before|)
      else if e.InputCancel? || Closes(before, OpenAt(before), e) then None
      else OpenAt(before)
  }

  /** The event is a stop that names the stream opened at `open` and counts the frames since. */
  ghost predicate Closes(before: seq<Inbound>, open: Option<nat>, e: Inbound) {
    && e.Stop? && open.Some? && open.value < |before| && before[open.value].Start?
    && e.stop.streamId == before[open.value].start.streamId
    && e.stop.lastSeq == |ChunksSince(before, open.value)|
  }

  /** The last event is the matching stop of the open stream. */
  ghost predicate Completes(run: seq<Inbound>)
    requires run != []
  {
    var before := run[..|run| - 1];
    Closes(before, OpenAt(before), run[|run| - 1])
  }

  function Chunks(run: seq<Inbound>): seq<Chunk> {
    if run == [] then []
    else Chunks(run[..|run| - 1]) + if run[|run| - 1].Frame? then [run[|run| - 1].chunk] else []
  }

  /** The frames that arrived after position i. */
  function ChunksSince(run: seq<Inbound>, i: nat): seq<Chunk>
    requires i < |run|
  {
    Chunks(run[i + 1..])
  }

  /** Everything put out after position i. */
  ghost function OutputSince(run: seq<Inbound>, i: nat): Output
    requires i < |run|
    decreases |run|
  {
    if i == |run| - 1 then NOTHING else Plus(OutputSince(run[..|run| - 1], i), LastOutput(run))
  }

  ghost function Verdicts(run: seq<Inbound>): seq<Verdict> {
    if run == [] then [] else Verdicts(run[..|run| - 1]) + LastOutput(run).verdicts
  }

  /** One verdict for each completing stop, decided by the echo guard at its start and carrying its frames. */
  ghost function ExpectedVerdicts(run: seq<Inbound>): seq<Verdict> {
    if run == [] then []
    else ExpectedVerdicts(run[..|run| - 1]) + if Completes(run) then [ExpectedVerdict(run)] else []
  }

  /** The verdict on the stream that began with `start` and has brought these chunks, when e is its matching stop. */
  function VerdictFor(start: Inbound, chunks: seq<Chunk>, configured: bool): Verdict
    requires start.Start?
  {
    if start.EchoGuard() then EchoSuppressed
    else if !configured then NotConfigured
    else Transcribe(start.start.streamId, FormatOf(start.start), AudioOf(chunks))
  }

  ghost function ExpectedVerdict(run: seq<Inbound>): Verdict
    requires run != [] && Completes(run)
  {
    var before := run[..|run| - 1];
    var i := OpenAt(before).value;
    VerdictFor(before[i], ChunksSince(before, i), run[|run| - 1].configured)
  }

  // ---- The session's state is what the run says ----

  /** The session while the stream that began with e is open and has brought some chunks. */
  ghost predicate Receiving(s: Voice, e: Inbound, chunks: seq<Chunk>) {
    && e.Start? && e.start.Valid()
    && s.tracker == Tracked(Some(e.start), |chunks|)
    && s.format == FormatOf(e.start) && s.echoGuard == e.EchoGuard()
    && s.audio == AudioOf(chunks) && s.inboundSeq == |chunks|
    && s.vad == Hear(ToClock(s.format), chunks).vad
  }

  ghost predicate Waiting(s: Voice) {
    s.tracker == IDLE && s.audio == [] && s.inboundSeq == 0
  }

  ghost predicate Reflects(s: Voice, run: seq<Inbound>) {
    match OpenAt(run)
    case None => Waiting(s)
    case Some(i) => i < |run| && Receiving(s, run[i], ChunksSince(run, i))
  }

  lemma ChunksStep(run: seq<Inbound>, i: nat)
    requires run != [] && i < |run| - 1
    ensures var before, e := run[..|run| - 1], run[|run| - 1];
            && ChunksSince(run, i) == (if e.Frame? then ChunksSince(before, i) + [e.chunk] else ChunksSince(before, i))
            && run[i] == before[i]
  {
    var before, tail := run[..|run| - 1], run[i + 1..];
    assert tail[..|tail| - 1] == before[i + 1..];
  }

  lemma HearStep(clock: Clock, chunks: seq<Chunk>, c: Chunk)
    ensures Hear(clock, chunks + [c]) == HearMore(clock, chunks, Hear(clock, chunks), c)
    ensures AudioOf(chunks + [c]) == AudioOf(chunks) + c.data
  {
    assert (chunks + [c])[..|chunks|] == chunks;
  }

  lemma ReceivingGrows(s: Voice, start: Inbound, chunks: seq<Chunk>, e: Inbound)
    requires Receiving(s, start, chunks) && e.Frame?
    ensures Receiving(OnFrame(s, e).0, start, chunks + [e.chunk])
  {
    HearStep(ToClock(s.format), chunks, e.chunk);
  }

  /** Nothing but a frame, a matching stop or a cancel touches an open stream. */
  lemma ReceivingContinues(s: Voice, start: Inbound, chunks: seq<Chunk>, e: Inbound)
    requires Receiving(s, start, chunks) && !e.Frame? && !e.InputCancel?
    ensures if e.Stop? && CanStop(s.tracker, e.stop) then Waiting(Step(s, e).0)
            else Receiving(Step(s, e).0, start, chunks)
  {
  }

  lemma ReceivingBegins(s: Voice, e: Inbound)
    requires Waiting(s) && e.Start? && e.start.Valid()
    ensures Receiving(Step(s, e).0, e, [])
  {
  }

  lemma WaitingContinues(s: Voice, e: Inbound)
    requires Waiting(s) && !(e.Start? && e.start.Valid())
    ensures Waiting(Step(s, e).0) && Step(s, e).1 == NOTHING
  {
  }

  lemma ReflectsStep(run: seq<Inbound>, s: Voice)
    requires run != [] && Reflects(s, run[..|run| - 1])
    ensures Reflects(Step(s, run[|run| - 1]).0, run)
  {
    var before, e := run[..|run| - 1], run[|run| - 1];
    if OpenAt(before).None? {
      if e.Start? && e.start.Valid() {
        assert run[|run|..] == [];
        ReceivingBegins(s, e);
      } else {
        WaitingContinues(s, e);
      }
    } else {
      var i := OpenAt(before).value;
      ChunksStep(run, i);
      if e.Frame? {
        ReceivingGrows(s, before[i], ChunksSince(before, i), e);
      } else if !e.InputCancel? {
        ReceivingContinues(s, before[i], ChunksSince(before, i), e);
      }
    }
  }

  lemma {:induction false} StateReflectsRun(run: seq<Inbound>)
    ensures Reflects(After(run), run)
  {
    if run != [] {
      StateReflectsRun(run[..|run| - 1]);
      ReflectsStep(run, After(run[..|run| - 1]));
    }
  }

  lemma ReceivingVerdicts(s: Voice, start: Inbound, chunks: seq<Chunk>, e: Inbound)
    requires Receiving(s, start, chunks)
    ensures Step(s, e).1.verdicts
            == if e.Stop? && e.stop.streamId == start.start.streamId && e.stop.lastSeq == |chunks|
               then [VerdictFor(start, chunks, e.configured)] else []
  {
  }

  lemma WaitingVerdicts(s: Voice, e: Inbound)
    requires Waiting(s)
    ensures Step(s, e).1.verdicts == []
  {
  }

  /**
   Whatever arrives, in whatever order, accepted or rejected: a verdict is reached exactly at each stop that names
   the open stream and counts its frames, and what is transcribed is exactly the frames since its start. A stop that
   does not match changes nothing, and the stream goes on.
   */
  lemma {:induction false} AsrHearsExactlyTheFrames(run: seq<Inbound>)
    ensures Verdicts(run) == ExpectedVerdicts(run)
  {
    if run != [] {
      var before, e := run[..|run| - 1], run[|run| - 1];
      AsrHearsExactlyTheFrames(before);
      StateReflectsRun(before);
      if OpenAt(before).None? {
        WaitingVerdicts(After(before), e);
      } else {
        var i := OpenAt(before).value;
        ReceivingVerdicts(After(before), before[i], ChunksSince(before, i), e);
      }
    }
  }

  // ---- What the session puts out while a stream is open ----

  /** What has been put out since the start of a stream that has brought some chunks; s is the session now. */
  ghost predicate VadOutput(s: Voice, chunks: seq<Chunk>, out: Output) {
    var heard := Hear(ToClock(s.format), chunks);
    out.events == heard.events && out.segments == heard.segments && out.verdicts == []
  }

  /** Partial transcriptions of a stream: prefixes of its audio with new ids, far enough apart in time and audio. */
  ghost predicate Spaced(format: AudioFormat, audio: seq<byte>, partials: seq<Partial>) {
    forall k :: 0 <= k < |partials| ==>
      && partials[k].audio <= audio
      && partials[k].format == format
      && if k == 0 then LastsAtLeast(format, |partials[k].audio|, PARTIAL_MIN_GROWTH_MS)
         else
           && partials[k - 1].id < partials[k].id
           && partials[k].at - partials[k - 1].at >= PARTIAL_MIN_WINDOW
           && LastsAtLeast(format, |partials[k].audio| - |partials[k - 1].audio|, PARTIAL_MIN_GROWTH_MS)
  }

  ghost predicate PartialOutput(s: Voice, partials: seq<Partial>) {
    && Spaced(s.format, s.audio, partials)
    && (s.echoGuard ==> partials == [])
    && if partials == [] then s.lastPartialAt == None && s.lastPartialSize == 0
       else
         var last := partials[|partials| - 1];
         s.lastPartialAt == Some(last.at) && s.lastPartialSize == |last.audio| && last.id <= s.slot.runID
  }

  ghost predicate OpenOutput(s: Voice, chunks: seq<Chunk>, out: Output) {
    VadOutput(s, chunks, out) && PartialOutput(s, out.partials)
  }

  lemma FrameExtendsVadOutput(s: Voice, start: Inbound, chunks: seq<Chunk>, e: Inbound, out: Output)
    requires Receiving(s, start, chunks) && e.Frame? && VadOutput(s, chunks, out)
    ensures VadOutput(OnFrame(s, e).0, chunks + [e.chunk], Plus(out, OnFrame(s, e).1))
  {
    HearStep(ToClock(s.format), chunks, e.chunk);
  }

  lemma SpacedSnoc(format: AudioFormat, audio: seq<byte>, data: seq<byte>, partials: seq<Partial>, p: Partial)
    requires Spaced(format, audio, partials) && p.audio == audio + data && p.format == format
    requires if partials == [] then LastsAtLeast(format, |p.audio|, PARTIAL_MIN_GROWTH_MS)
             else
               var last := partials[|partials| - 1];
               && last.id < p.id && p.at - last.at >= PARTIAL_MIN_WINDOW
               && LastsAtLeast(format, |p.audio| - |last.audio|, PARTIAL_MIN_GROWTH_MS)
    ensures Spaced(format, audio + data, partials + [p])
  {
    SpacedSurvives(format, audio, data, partials);
  }

  lemma SpacedSurvives(format: AudioFormat, audio: seq<byte>, data: seq<byte>, partials: seq<Partial>)
    requires Spaced(format, audio, partials)
    ensures Spaced(format, audio + data, partials)
  {
    forall k | 0 <= k < |partials| ensures partials[k].audio <= audio + data {
      assert partials[k].audio <= audio;
    }
  }

  /** What a frame does to the fields that govern partial transcription. */
  lemma FrameLaunches(s: Voice, e: Inbound)
    requires e.Frame? && s.tracker.active.Some?
    ensures var (next, out) := OnFrame(s, e);
            && next.audio == s.audio + e.chunk.data && next.format == s.format && next.echoGuard == s.echoGuard
            && if CanPartial(s, |next.audio|, e.now, e.configured)
               then
                 && out.partials == [Partial(s.slot.runID + 1, e.now, s.format, next.audio)]
                 && next.slot.runID == s.slot.runID + 1
                 && next.lastPartialAt == Some(e.now) && next.lastPartialSize == |next.audio|
               else
                 && out.partials == [] && next.slot == s.slot
                 && next.lastPartialAt == s.lastPartialAt && next.lastPartialSize == s.lastPartialSize
  {
  }

  lemma FrameExtendsPartials(s: Voice, e: Inbound, next: Voice, more: seq<Partial>, partials: seq<Partial>)
    requires e.Frame? && s.tracker.active.Some? && PartialOutput(s, partials)
    requires next == OnFrame(s, e).0 && more == OnFrame(s, e).1.partials
    ensures PartialOutput(next, partials + more)
  {
    FrameLaunches(s, e);
    if more == [] {
      assert partials + more == partials;
      SpacedSurvives(s.format, s.audio, e.chunk.data, partials);
    } else {
      SpacedSnoc(s.format, s.audio, e.chunk.data, partials, more[0]);
    }
  }

  lemma OthersPutNothingOut(s: Voice, e: Inbound, partials: seq<Partial>)
    requires s.tracker.active.Some? && PartialOutput(s, partials)
    requires !e.Frame? && !e.InputCancel? && !(e.Stop? && CanStop(s.tracker, e.stop))
    ensures Step(s, e).1 == NOTHING && PartialOutput(Step(s, e).0, partials)
    ensures Step(s, e).0.format == s.format
  {
  }

  lemma OutputStep(run: seq<Inbound>, i: nat)
    requires i < |run| - 1
    ensures var before, e := run[..|run| - 1], run[|run| - 1];
            && OutputSince(run, i) == Plus(OutputSince(before, i), Step(After(before), e).1)
            && After(run) == Step(After(before), e).0
  {
  }

  lemma OutputGrows(s: Voice, start: Inbound, chunks: seq<Chunk>, e: Inbound, out: Output)
    requires Receiving(s, start, chunks) && OpenOutput(s, chunks, out)
    requires !e.InputCancel? && !(e.Stop? && CanStop(s.tracker, e.stop))
    ensures OpenOutput(Step(s, e).0, if e.Frame? then chunks + [e.chunk] else chunks, Plus(out, Step(s, e).1))
  {
    if e.Frame? {
      FrameExtendsVadOutput(s, start, chunks, e, out);
      FrameExtendsPartials(s, e, Step(s, e).0, Step(s, e).1.partials, out.partials);
    } else {
      OthersPutNothingOut(s, e, out.partials);
      assert Plus(out, NOTHING) == out;
    }
  }

  /**
   While a stream is open, what has been reported since its start is exactly the segmentation of its chunks, and its
   partial transcriptions are snapshots at least 1500 ms apart, each with at least 1200 ms of new audio; a stream
   under the echo guard has none.
   */
  lemma {:induction false} OpenStreamOutput(run: seq<Inbound>)
    requires OpenAt(run).Some?
    ensures OpenAt(run).value < |run|
    ensures OpenOutput(After(run), ChunksSince(run, OpenAt(run).value), OutputSince(run, OpenAt(run).value))
  {
    var before, e := run[..|run| - 1], run[|run| - 1];
    var s := After(before);
    StateReflectsRun(before);
    if OpenAt(before).None? {
      assert run[|run|..] == [];
      ReceivingBegins(s, e);
    } else {
      OpenStreamOutput(before);
      var i := OpenAt(before).value;
      ChunksStep(run, i);
      OutputStep(run, i);
      OutputGrows(s, run[i], ChunksSince(before, i), e, OutputSince(before, i));
    }
  }

  lemma StopCompletesOutput(s: Voice, start: Inbound, chunks: seq<Chunk>, e: Inbound, out: Output)
    requires Receiving(s, start, chunks) && VadOutput(s, chunks, out)
    requires e.Stop? && CanStop(s.tracker, e.stop)
    ensures var all, clock := Plus(out, Step(s, e).1), ToClock(s.format);
            && all.segments == SegmentsAtStop(clock, chunks) && all.events == Hear(clock, chunks).events
            && all.verdicts == [VerdictFor(start, chunks, e.configured)]
  {
  }

  /** The matching stop adds the segment that is still open, so the whole stream has been reported. */
  lemma StoppedStreamOutput(run: seq<Inbound>)
    requires run != [] && Completes(run)
    ensures var before := run[..|run| - 1];
            var i := OpenAt(before).value;
            var clock := ToClock(FormatOf(before[i].start));
            && i < |before|
            && OutputSince(run, i).segments == SegmentsAtStop(clock, ChunksSince(before, i))
            && OutputSince(run, i).events == Hear(clock, ChunksSince(before, i)).events
            && OutputSince(run, i).verdicts == [ExpectedVerdict(run)]
  {
    var before, e := run[..|run| - 1], run[|run| - 1];
    var i := OpenAt(before).value;
    StateReflectsRun(before);
    OpenStreamOutput(before);
    OutputStep(run, i);
    StopCompletesOutput(After(before), before[i], ChunksSince(before, i), e, OutputSince(before, i));
  }

  /**
   So while a stream is open the session's voice activity is an exact segmentation of the frames since its start,
   and speech is active if and only if a segment is.
   */
  lemma OpenStreamIsExplained(run: seq<Inbound>) returns (spans: seq<Span>, open: Option<nat>)
    requires OpenAt(run).Some?
    ensures var s, i := After(run), OpenAt(run).value;
            && i < |run|
            && var out := OutputSince(run, i);
               Explained(ToClock(s.format), ChunksSince(run, i), Stream(s.vad, out.events, out.segments), spans, open)
  {
    StateReflectsRun(run);
    OpenStreamOutput(run);
    var s, i := After(run), OpenAt(run).value;
    spans, open := StreamIsExplained(ToClock(s.format), ChunksSince(run, i));
  }

  /** A stream that ends, by its matching stop or by input.cancel, has reported exactly the events of its chunks. */
  lemma EndedStreamEvents(run: seq<Inbound>)
    requires run != [] && OpenAt(run[..|run| - 1]).Some? && OpenAt(run).None?
    ensures var before := run[..|run| - 1];
            var i := OpenAt(before).value;
            && i < |before| && before[i].Start?
            && var clock, events := ToClock(FormatOf(before[i].start)), OutputSince(run, i).events;
               && events == Hear(clock, ChunksSince(before, i)).events
               && (EndsWithStart(events) <==> StillSpeaking(clock, ChunksSince(before, i)))
  {
    var before, e := run[..|run| - 1], run[|run| - 1];
    var i := OpenAt(before).value;
    StateReflectsRun(before);
    OpenStreamOutput(before);
    OutputStep(run, i);
    var s := After(before);
    FormatsHaveClocks(s.format);
    StreamEventsTell(ToClock(s.format), ChunksSince(before, i));
    var out := OutputSince(before, i);
    assert Step(s, e).1.events == [] && out.events + [] == out.events;
  }

  // ---- One frame, in numbers ----

  lemma StartsPlay(start: AudioStart)
    requires start.Valid()
    ensures Plays(FormatOf(start), start.sampleRateHz, start.channels)
  {
  }

  /** What a frame should report, when speech goes on or not and it leaves this much silence at the end. */
  function Report(p: AudioStart, goesOn: bool, level: real, silence: nat): seq<VadEvent> {
    if level >= 0.012 then (if goesOn then [] else [SpeechStarted])
    else if goesOn && silence > 0 && silence * 1000 >= 220 * (p.sampleRateHz * p.channels * 2) then [SpeechStopped]
    else []
  }

  lemma FrameReports(s: Voice, start: Inbound, chunks: seq<Chunk>, e: Inbound)
    requires Receiving(s, start, chunks) && e.Frame?
    ensures OnFrame(s, e).1.events
            == Report(start.start, StillSpeaking(ToClock(s.format), chunks), e.chunk.level, SilentTail(chunks + [e.chunk]))
  {
    StartsPlay(start.start);
    FormatsHaveClocks(s.format);
    StreamEventsTell(ToClock(s.format), chunks);
    SilentTailSnoc(chunks, e.chunk);
    ClockMeasures(s.format, start.start.sampleRateHz, start.start.channels, SilentTail(chunks + [e.chunk]));
  }

  /**
   In every run, a frame reports speech_started if it is loud enough and speech is not already going on, and
   speech_stopped if speech is going on and the samples of the silence that it completes last 220 ms; and nothing else.
   */
  lemma FrameReportsIff(run: seq<Inbound>)
    requires run != [] && run[|run| - 1].Frame? && OpenAt(run[..|run| - 1]).Some?
    ensures var before, e := run[..|run| - 1], run[|run| - 1];
            var i := OpenAt(before).value;
            && i < |before| && before[i].Start?
            && var p := before[i].start;
               LastOutput(run).events
               == Report(p, StillSpeaking(ToClock(FormatOf(p)), ChunksSince(before, i)), e.chunk.level,
                         SilentTail(ChunksSince(run, i)))
  {
    var before, e := run[..|run| - 1], run[|run| - 1];
    var i := OpenAt(before).value;
    StateReflectsRun(before);
    ChunksStep(run, i);
    FrameReports(After(before), before[i], ChunksSince(before, i), e);
  }

  /** The partial transcription that a frame should start, given those before it, the audio so far and the slot. */
  function PartialWanted(start: Inbound, e: Inbound, past: seq<Partial>, audio: seq<byte>, slot: Slot): seq<Partial>
    requires start.Start? && e.Frame?
  {
    var covered := if past == [] then 0 else |past[|past| - 1].audio|;
    if && e.configured && !(start.autoRespond && start.now < start.playbackEchoUntil) && !slot.inFlight
       && (past == [] || e.now - past[|past| - 1].at >= 1_500_000_000)
       && |audio| > covered
       && (|audio| - covered) * 1000 >= 1200 * (start.start.sampleRateHz * start.start.channels * 2)
    then [Partial(slot.runID + 1, e.now, FormatOf(start.start), audio)] else []
  }

  lemma FrameTranscribes(s: Voice, start: Inbound, chunks: seq<Chunk>, e: Inbound, past: seq<Partial>)
    requires Receiving(s, start, chunks) && e.Frame? && PartialOutput(s, past)
    ensures OnFrame(s, e).1.partials == PartialWanted(start, e, past, AudioOf(chunks + [e.chunk]), s.slot)
  {
    HearStep(ToClock(s.format), chunks, e.chunk);
    StartsPlay(start.start);
    if past != [] {
      assert past[|past| - 1].audio <= s.audio;
    }
    FrameLaunches(s, e);
    var audio := AudioOf(chunks + [e.chunk]);
    var covered := if past == [] then 0 else |past[|past| - 1].audio|;
    InNumbers(|audio| - covered, BytesPerSecond(s.format), start.start.sampleRateHz * start.start.channels * 2);
  }

  lemma InNumbers(growth: int, bytesPerSecond: nat, second: nat)
    requires bytesPerSecond == second > 0
    ensures growth > 0 && growth * 1000 >= PARTIAL_MIN_GROWTH_MS * bytesPerSecond <==>
            growth > 0 && growth * 1000 >= 1200 * second
  {
  }

  /**
   In every run, a frame starts a partial transcription if and only if a client is configured, the echo guard was not
   up at the start, none is running, the last of this stream is at least 1500 ms ago, and at least 1200 ms of audio
   have come since; it is of all the audio so far.
   */
  lemma FrameTranscribesIff(run: seq<Inbound>)
    requires run != [] && run[|run| - 1].Frame? && OpenAt(run[..|run| - 1]).Some?
    ensures var before, e := run[..|run| - 1], run[|run| - 1];
            var i := OpenAt(before).value;
            && i < |before| && before[i].Start?
            && LastOutput(run).partials
               == PartialWanted(before[i], e, OutputSince(before, i).partials, AudioOf(ChunksSince(run, i)),
                                After(before).slot)
  {
    var before, e := run[..|run| - 1], run[|run| - 1];
    var i := OpenAt(before).value;
    StateReflectsRun(before);
    OpenStreamOutput(before);
    ChunksStep(run, i);
    FrameTranscribes(After(before), before[i], ChunksSince(before, i), e, OutputSince(before, i).partials);
  }

  /** The verdict on a stream, in terms of its start: what is transcribed is its audio, as it was announced. */
  lemma VerdictInWords(start: Inbound, chunks: seq<Chunk>, configured: bool)
    requires start.Start?
    ensures var guarded, p := start.autoRespond && start.now < start.playbackEchoUntil, start.start;
            VerdictFor(start, chunks, configured)
            == if guarded then EchoSuppressed
               else if configured
               then Transcribe(p.streamId, AudioFormat(p.codec, p.sampleRateHz, p.channels), AudioOf(chunks))
               else NotConfigured
  {
  }

  // ---- The events of a whole session ----

  /** A stream of the session: its format, and the chunks it brought while it was open. */
  datatype Received = Received(format: AudioFormat, chunks: seq<Chunk>) {
    ghost predicate Breaks() {
      StillSpeaking(ToClock(format), chunks)
    }

    ghost function Events(): seq<VadEvent> {
      Hear(ToClock(format), chunks).events
    }
  }

  /** What one event does to the streams of a session, given whether the last of them is open. */
  function Extend(streams: seq<Received>, open: bool, e: Inbound): seq<Received> {
    if !open && e.Start? && e.start.Valid() then streams + [Received(FormatOf(e.start), [])]
    else if open && e.Frame? && streams != [] then
      var last := streams[|streams| - 1];
      streams[..|streams| - 1] + [last.(chunks := last.chunks + [e.chunk])]
    else streams
  }

  /** All the streams that a run opens, in order. */
  ghost function StreamsOf(run: seq<Inbound>): seq<Received> {
    if run == [] then [] else Extend(StreamsOf(run[..|run| - 1]), OpenAt(run[..|run| - 1]).Some?, run[|run| - 1])
  }

  /** All the events that a run reports. */
  ghost function Events(run: seq<Inbound>): seq<VadEvent> {
    if run == [] then [] else Events(run[..|run| - 1]) + LastOutput(run).events
  }

  ghost function EventsOf(streams: seq<Received>): seq<VadEvent> {
    if streams == [] then [] else EventsOf(streams[..|streams| - 1]) + streams[|streams| - 1].Events()
  }

  lemma EventsOfSnoc(streams: seq<Received>, last: Received)
    ensures EventsOf(streams + [last]) == EventsOf(streams) + last.Events()
  {
    assert (streams + [last])[..|streams|] == streams;
  }

  /** While a stream is open, it is the last one, and the session has heard its chunks. */
  ghost predicate Tracks(s: Voice, streams: seq<Received>) {
    s.tracker.active.Some? ==>
      && streams != []
      && var last := streams[|streams| - 1];
         last.format == s.format && s.vad == Hear(ToClock(s.format), last.chunks).vad && s.audio == AudioOf(last.chunks)
  }

  /** What the session hears of a frame is what the frame adds to its stream. */
  lemma FrameIsHeard(s: Voice, e: Inbound, last: Received)
    requires e.Frame? && s.tracker.active.Some? && last.format == s.format
    requires s.vad == Hear(ToClock(s.format), last.chunks).vad && s.audio == AudioOf(last.chunks)
    ensures var next, chunks := OnFrame(s, e).0, last.chunks + [e.chunk];
            && next.format == s.format && next.audio == AudioOf(chunks)
            && next.vad == Hear(ToClock(s.format), chunks).vad
    ensures last.(chunks := last.chunks + [e.chunk]).Events() == last.Events() + OnFrame(s, e).1.events
  {
    HearStep(ToClock(s.format), last.chunks, e.chunk);
  }

  lemma LongerTail(a: seq<VadEvent>, b: seq<VadEvent>, more: seq<VadEvent>)
    ensures a + (b + more) == a + b + more
  {
  }

  lemma FrameExtends(s: Voice, e: Inbound, streams: seq<Received>, init: seq<Received>, last: Received)
    requires streams == init + [last] && Tracks(s, streams) && s.tracker.active.Some? && e.Frame?
    ensures var next := init + [last.(chunks := last.chunks + [e.chunk])];
            && Tracks(OnFrame(s, e).0, next)
            && EventsOf(next) == EventsOf(streams) + OnFrame(s, e).1.events
  {
    FrameIsHeard(s, e, last);
    EventsOfSnoc(init, last);
    EventsOfSnoc(init, last.(chunks := last.chunks + [e.chunk]));
    LongerTail(EventsOf(init), last.Events(), OnFrame(s, e).1.events);
  }

  lemma OthersExtend(s: Voice, e: Inbound, streams: seq<Received>)
    requires Tracks(s, streams) && !(s.tracker.active.Some? && e.Frame?)
    ensures Tracks(Step(s, e).0, Extend(streams, s.tracker.active.Some?, e))
    ensures Step(s, e).1.events == []
    ensures EventsOf(Extend(streams, s.tracker.active.Some?, e)) == EventsOf(streams)
  {
    if e.Start? {
      EventsOfSnoc(streams, Received(FormatOf(e.start), []));
    }
  }

  lemma EventExtends(s: Voice, e: Inbound, streams: seq<Received>, open: bool)
    requires Tracks(s, streams) && open == s.tracker.active.Some?
    ensures Tracks(Step(s, e).0, Extend(streams, open, e))
    ensures EventsOf(Extend(streams, open, e)) == EventsOf(streams) + Step(s, e).1.events
  {
    if open && e.Frame? {
      var n := |streams| - 1;
      assert streams == streams[..n] + [streams[n]];
      FrameExtends(s, e, streams, streams[..n], streams[n]);
    } else {
      OthersExtend(s, e, streams);
      assert EventsOf(streams) + [] == EventsOf(streams);
    }
  }

  lemma OpenIffActive(run: seq<Inbound>)
    ensures OpenAt(run).Some? <==> After(run).tracker.active.Some?
  {
    StateReflectsRun(run);
  }

  /** The session reports the events of its streams, one stream after another. */
  lemma {:induction false} SessionReportsItsStreams(run: seq<Inbound>)
    ensures Events(run) == EventsOf(StreamsOf(run)) && Tracks(After(run), StreamsOf(run))
  {
    if run != [] {
      var before := run[..|run| - 1];
      SessionReportsItsStreams(before);
      OpenIffActive(before);
      EventExtends(After(before), run[|run| - 1], StreamsOf(before), OpenAt(before).Some?);
    }
  }

  /** Some stream ends while speech goes on, and a later one hears speech. */
  ghost predicate SpeechIsCutOff(streams: seq<Received>) {
    exists a, b :: 0 <= a < b < |streams| && streams[a].Breaks() && HearsSpeech(streams[b].chunks)
  }

  ghost predicate SomeBreaks(streams: seq<Received>) {
    exists a :: 0 <= a < |streams| && streams[a].Breaks()
  }

  lemma OneMoreStream(streams: seq<Received>, before: seq<Received>, last: Received)
    requires streams == before + [last]
    ensures SpeechIsCutOff(streams) <==> SpeechIsCutOff(before) || (SomeBreaks(before) && HearsSpeech(last.chunks))
    ensures SomeBreaks(streams) <==> SomeBreaks(before) || last.Breaks()
  {
    assert streams[|before|] == last && forall k :: 0 <= k < |before| ==> streams[k] == before[k];
    if SpeechIsCutOff(before) {
      var a, b :| 0 <= a < b < |before| && before[a].Breaks() && HearsSpeech(before[b].chunks);
      assert streams[a].Breaks() && HearsSpeech(streams[b].chunks);
    }
    if SomeBreaks(before) {
      var a :| 0 <= a < |before| && before[a].Breaks();
      assert streams[a].Breaks();
    }
  }

  ghost predicate Known(streams: seq<Received>, events: seq<VadEvent>) {
    && (InTurn(events) <==> !SpeechIsCutOff(streams))
    && (InTurn(events) ==> (EndsWithStart(events) <==> SomeBreaks(streams)))
  }

  lemma KnownOfOneMore(streams: seq<Received>, before: seq<Received>, last: Received, events: seq<VadEvent>,
                       more: seq<VadEvent>)
    requires streams == before + [last] && Known(before, events) && InTurn(more)
    requires (more != [] <==> HearsSpeech(last.chunks)) && (EndsWithStart(more) <==> last.Breaks())
    ensures Known(streams, events + more)
  {
    OneMoreStream(streams, before, last);
    InTurnAppends(events, more);
  }

  lemma {:induction false} StreamsInTurn(streams: seq<Received>)
    ensures Known(streams, EventsOf(streams))
  {
    if streams != [] {
      var before, last := streams[..|streams| - 1], streams[|streams| - 1];
      StreamsInTurn(before);
      FormatsHaveClocks(last.format);
      StreamEventsTell(ToClock(last.format), last.chunks);
      KnownOfOneMore(streams, before, last, EventsOf(before), last.Events());
    }
  }

  /**
   For every run: speech_started and speech_stopped alternate over the whole session if and only if no stream that
   ended, by its stop or by input.cancel, while speech went on is followed by a stream in which speech is heard.
   */
  lemma SessionEventsAlternateIff(run: seq<Inbound>)
    ensures InTurn(Events(run)) <==> !SpeechIsCutOff(StreamsOf(run))
  {
    SessionReportsItsStreams(run);
    StreamsInTurn(StreamsOf(run));
  }

  ghost predicate Opens(run: seq<Inbound>, open: Option<nat>, streams: seq<Received>) {
    OpenAt(run) == open && StreamsOf(run) == streams
  }

  lemma StartOpens(run: seq<Inbound>, e: Inbound, streams: seq<Received>)
    requires Opens(run, None, streams) && e.Start? && e.start.Valid()
    ensures Opens(run + [e], Some(|run|), streams + [Received(FormatOf(e.start), [])])
  {
    assert (run + [e])[..|run|] == run;
  }

  lemma FrameJoins(run: seq<Inbound>, e: Inbound, i: nat, init: seq<Received>, format: AudioFormat)
    requires Opens(run, Some(i), init + [Received(format, [])]) && e.Frame?
    ensures Opens(run + [e], Some(i), init + [Received(format, [e.chunk])])
  {
    assert (run + [e])[..|run|] == run;
    var streams := init + [Received(format, [])];
    assert streams[..|streams| - 1] == init && streams[|streams| - 1] == Received(format, []);
    assert [] + [e.chunk] == [e.chunk];
  }

  lemma EndCloses(run: seq<Inbound>, e: Inbound, i: nat, streams: seq<Received>)
    requires Opens(run, Some(i), streams) && (e.InputCancel? || Closes(run, Some(i), e))
    ensures Opens(run + [e], None, streams)
  {
    assert (run + [e])[..|run|] == run;
  }

  lemma OneFrame(start: Inbound, frame: Inbound)
    requires frame.Frame?
    ensures ChunksSince([start] + [frame], 0) == [frame.chunk]
  {
    assert ([start] + [frame])[1..] == [frame] && [frame][..0] == [];
    assert Chunks([]) + [frame.chunk] == [frame.chunk];
  }

  /** A stream of one frame that ends. */
  lemma OneStream(start: Inbound, frame: Inbound, end: Inbound)
    requires start.Start? && start.start.Valid() && frame.Frame?
    requires end.InputCancel? || (end.Stop? && end.stop == AudioStop(start.start.streamId, 1))
    ensures Opens([start] + [frame] + [end], None, [Received(FormatOf(start.start), [frame.chunk])])
  {
    StartOpens([], start, []);
    assert [] + [start] == [start] && [] + [Received(FormatOf(start.start), [])] == [Received(FormatOf(start.start), [])];
    FrameJoins([start], frame, 0, [], FormatOf(start.start));
    OneFrame(start, frame);
    EndCloses([start] + [frame], end, 0, [Received(FormatOf(start.start), [frame.chunk])]);
  }

  /** A second one after it. */
  lemma OneMore(start: Inbound, frame: Inbound, run: seq<Inbound>, one: Received)
    requires start.Start? && start.start.Valid() && frame.Frame?
    requires Opens(run, None, [one]) && one == Received(FormatOf(start.start), [frame.chunk])
    ensures StreamsOf(run + [start] + [frame]) == [one, one]
  {
    StartOpens(run, start, [one]);
    FrameJoins(run + [start], frame, |run|, [one], one.format);
  }

  /** Runs at which they do not: a stream is stopped, or the input cancelled, right after a first frame of speech. */
  lemma CutOffSpeechStartsTwice(start: Inbound, frame: Inbound, end: Inbound)
    requires start.Start? && start.start.Valid() && frame.Frame? && frame.chunk.Speaking()
    requires end.InputCancel? || (end.Stop? && end.stop == AudioStop(start.start.streamId, 1))
    ensures !InTurn(Events([start, frame, end, start, frame]))
  {
    var run, one := [start, frame, end, start, frame], Received(FormatOf(start.start), [frame.chunk]);
    OneStream(start, frame, end);
    OneMore(start, frame, [start] + [frame] + [end], one);
    assert run == [start] + [frame] + [end] + [start] + [frame];
    SpeechGoesOn(one.format, frame.chunk);
    assert StreamsOf(run)[0].Breaks() && HearsSpeech(StreamsOf(run)[1].chunks);
    SessionEventsAlternateIff(run);
  }

  lemma SpeechGoesOn(format: AudioFormat, c: Chunk)
    requires c.Speaking()
    ensures Received(format, [c]).Breaks() && HearsSpeech([c])
  {
    FormatsHaveClocks(format);
    assert [c][0].Speaking() && [c] == [] + [c];
    SilentTailSnoc([], c);
  }

  // ---- The partial transcriptions of the session follow the protocol of their slot ----

  /** The steps of the protocol that an event amounts to; a cancel function that was not there is not called. */
  function ProtocolSteps(s: Voice, e: Inbound): seq<PartialAsr.Step> {
    match e
    case Start(start, _, _, _) =>
      if start.Valid() then [Cancel(true), CallCancel, FinishStart(CanStart(s.tracker, start))] else []
    case Frame(_, _, _) => if OnFrame(s, e).1.partials != [] then [Launch] else []
    case Stop(stop, _) => if CanStop(s.tracker, stop) then [Cancel(false), CallCancel] else []
    case InputCancel => [Cancel(false), CallCancel]
    case PartialDone(id) => [Return(id)]
    case Other => []
  }

  ghost function ProtocolRun(run: seq<Inbound>): seq<PartialAsr.Step> {
    if run == [] then []
    else ProtocolRun(run[..|run| - 1]) + ProtocolSteps(After(run[..|run| - 1]), run[|run| - 1])
  }

  /** Cancelling, then calling the cancel function if there was one. */
  lemma CancelAndCall(steps: seq<PartialAsr.Step>, starting: bool)
    requires PartialAsr.After(steps).reader.Ready?
    ensures var p, q := PartialAsr.After(steps), PartialAsr.After(steps + [Cancel(starting), CallCancel]);
            q.slot == p.slot.Cancelled() && q.reader == Then(starting)
  {
    AfterSnoc(steps, Cancel(starting));
    AfterSnoc(steps + [Cancel(starting)], CallCancel);
    assert steps + [Cancel(starting)] + [CallCancel] == steps + [Cancel(starting), CallCancel];
  }

  lemma StartSteps(steps: seq<PartialAsr.Step>, accepted: bool)
    requires PartialAsr.After(steps).reader.Ready?
    ensures var p, q := PartialAsr.After(steps), PartialAsr.After(steps + [Cancel(true), CallCancel, FinishStart(accepted)]);
            && q.reader.Ready?
            && q.slot == if accepted then p.slot.Cancelled().Cancelled() else p.slot.Cancelled()
  {
    CancelAndCall(steps, true);
    AfterSnoc(steps + [Cancel(true), CallCancel], FinishStart(accepted));
    assert steps + [Cancel(true), CallCancel] + [FinishStart(accepted)]
           == steps + [Cancel(true), CallCancel, FinishStart(accepted)];
  }

  lemma ReturnSteps(steps: seq<PartialAsr.Step>, id: nat)
    requires PartialAsr.After(steps).reader.Ready?
    ensures var p, q := PartialAsr.After(steps), PartialAsr.After(steps + [Return(id)]);
            q.reader.Ready? && q.slot == p.slot.Returned(id)
  {
    AfterSnoc(steps, Return(id));
    InvariantHolds(steps);
  }

  lemma LaunchSteps(steps: seq<PartialAsr.Step>)
    requires PartialAsr.After(steps).reader.Ready? && !PartialAsr.After(steps).slot.inFlight
    ensures var p, q := PartialAsr.After(steps), PartialAsr.After(steps + [Launch]);
            q.reader.Ready? && q.slot == p.slot.Launched()
  {
    AfterSnoc(steps, Launch);
  }

  /** What an event does to the slot. */
  lemma SlotStep(s: Voice, e: Inbound)
    ensures Step(s, e).0.slot
            == match e
               case Start(start, _, _, _) =>
                 if !start.Valid() then s.slot
                 else if CanStart(s.tracker, start) then s.slot.Cancelled().Cancelled() else s.slot.Cancelled()
               case Frame(_, _, _) => if OnFrame(s, e).1.partials != [] then s.slot.Launched() else s.slot
               case Stop(stop, _) => if CanStop(s.tracker, stop) then s.slot.Cancelled() else s.slot
               case InputCancel => s.slot.Cancelled()
               case PartialDone(id) => s.slot.Returned(id)
               case Other => s.slot
    ensures e.Frame? && OnFrame(s, e).1.partials != [] ==> !s.slot.inFlight
  {
  }

  /**
   Every run of the session is a run of the protocol, so all that holds there in every state holds of the slot of
   the session: its run ids are never reused and its slot is taken exactly while a current transcription runs.
   */
  lemma {:induction false} SessionFollowsProtocol(run: seq<Inbound>)
    ensures PartialAsr.After(ProtocolRun(run)).slot == After(run).slot
    ensures PartialAsr.After(ProtocolRun(run)).reader.Ready?
  {
    if run != [] {
      var before, e := run[..|run| - 1], run[|run| - 1];
      SessionFollowsProtocol(before);
      var steps, s := ProtocolRun(before), After(before);
      SlotStep(s, e);
      assert steps + [] == steps;
      match e
      case Start(start, _, _, _) => StartSteps(steps, CanStart(s.tracker, start));
      case Frame(_, _, _) =>
        if OnFrame(s, e).1.partials != [] {
          LaunchSteps(steps);
        }
      case Stop(_, _) => CancelAndCall(steps, false);
      case InputCancel => CancelAndCall(steps, false);
      case PartialDone(id) => ReturnSteps(steps, id);
      case Other =>
    }
  }
}
