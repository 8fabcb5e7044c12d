/**
 Voice activity detection: cutting one inbound stream into speech segments as its chunks arrive.
 internal/voicews/session.go:539-580, 648, 2151-2182 and 2478-2506.

 A chunk comes with its level. Durations are exact fractions: n bytes last n / BytesPerSecond seconds.
 */
module Vad {
  import opened Common
  import opened Bytes
  import opened AudioFormats

  const SPEECH_THRESHOLD := 0.012
  const SILENCE_RELEASE_MS := 220

  function BytesPerSecond(format: AudioFormat): (n: nat)
    ensures n > 0
  {
    PositiveProduct(EffectiveRate(format), EffectiveChannels(format));
    EffectiveRate(format) * EffectiveChannels(format) * 2
  }

  /** durationMs(formatByteDuration(bytes)) */
  function Milliseconds(format: AudioFormat, bytes: nat): nat {
    Quotient(bytes * 1000, BytesPerSecond(format))
  }

  /** formatByteDuration(bytes) >= ms, for a positive ms. */
  predicate LastsAtLeast(format: AudioFormat, bytes: int, ms: nat) {
    bytes > 0 && bytes * 1000 >= ms * BytesPerSecond(format)
  }

  function ToClock(format: AudioFormat): Clock {
    Clock(bytes => Milliseconds(format, bytes), bytes => LastsAtLeast(format, bytes, SILENCE_RELEASE_MS))
  }

  /** n bytes last so many whole milliseconds, at two bytes a sample, and end a segment if they last 220. */
  lemma ClockMeasures(format: AudioFormat, rate: nat, channels: nat, n: nat)
    requires Plays(format, rate, channels)
    ensures var clock, second := ToClock(format), rate * channels * 2;
            && clock.milliseconds(n) * second <= n * 1000 < clock.milliseconds(n) * second + second
            && (clock.releases(n) <==> n > 0 && n * 1000 >= 220 * second)
  {
    DividesInto(n * 1000, BytesPerSecond(format));
  }

  lemma DividesInto(a: nat, b: nat)
    requires b > 0
    ensures Quotient(a, b) * b <= a < Quotient(a, b) * b + b
  {
    assert a == a / b * b + a % b;
  }

  lemma OnlyQuotient(a: nat, b: nat, q: nat)
    requires b > 0 && q * b <= a < q * b + b
    ensures Quotient(a, b) == q
  {
    DividesInto(a, b);
    var other := Quotient(a, b);
    if other < q {
      Between(b, other, q);
    } else if other > q {
      Between(b, q, other);
    }
  }

  lemma Between(b: nat, low: nat, high: nat)
    requires low < high
    ensures low * b + b <= high * b
  {
    assert (low + 1) * b <= high * b;
  }

  lemma SamplesTimes(channels: nat, samples: nat, rate: nat, ms: nat)
    requires channels > 0
    ensures 2 * channels * samples * 1000 >= ms * (rate * channels * 2) <==> samples * 1000 >= ms * rate
    ensures ms * (rate * channels * 2) == (ms * rate) * (2 * channels)
    ensures 2 * channels * samples * 1000 == (samples * 1000) * (2 * channels)
  {
    var width := 2 * channels;
    assert ms * (rate * channels * 2) == (ms * rate) * width;
    assert width * samples * 1000 == (samples * 1000) * width;
  }

  /** In samples: a second is `rate` of them, whatever the number of channels, and a segment ends after 220 ms. */
  lemma SamplesLast(format: AudioFormat, rate: nat, channels: nat, samples: nat, seconds: nat)
    requires Plays(format, rate, channels)
    ensures ToClock(format).releases(2 * channels * samples) <==> samples > 0 && samples * 1000 >= 220 * rate
    ensures ToClock(format).milliseconds(rate * channels * 2 * seconds) == 1000 * seconds
  {
    ClockMeasures(format, rate, channels, 2 * channels * samples);
    SamplesTimes(channels, samples, rate, 220);
    var second := rate * channels * 2;
    assert second == BytesPerSecond(format);
    assert second * seconds * 1000 == 1000 * seconds * second;
    OnlyQuotient(second * seconds * 1000, second, 1000 * seconds);
  }

  function Quotient(a: nat, b: nat): nat
    requires b > 0
  {
    a / b
  }

  lemma PositiveProduct(a: nat, b: nat)
    requires a > 0 && b > 0
    ensures a * b * 2 > 0
  {
  }

  /**
   All that segmentation needs to know of a format: how many milliseconds a number of bytes lasts, and whether
   that much silence ends a segment.
   */
  datatype Clock = Clock(milliseconds: nat -> nat, releases: nat -> bool)

  datatype Chunk = Chunk(data: seq<byte>, level: real) {
    /** pcmLevel gives 0 to a payload of less than one sample. */
    ghost predicate Valid() {
      |data| < 2 ==> level == 0.0
    }

    predicate Speaking() {
      level >= SPEECH_THRESHOLD
    }
  }

  datatype VadEvent = SpeechStarted | SpeechStopped

  /** completedSegment; the source names the n-th segment of a stream segment-n. */
  datatype Segment = Segment(id: nat, audio: seq<byte>, startMs: nat, endMs: nat, endLevel: real, peakLevel: real)

  /** The fields of the session that belong to voice activity detection. */
  datatype Vad = Vad(
    speechActive: bool,
    silenceBytes: nat,
    segmentSeq: nat,
    activeSegment: Option<nat>,
    segmentStartByte: nat,
    segmentStartMs: nat,
    peakLevel: real)

  const QUIET := Vad(false, 0, 0, None, 0, 0, 0.0)

  datatype Heard = Heard(vad: Vad, events: seq<VadEvent>, completed: Option<Segment>)

  /** completeActiveSegmentLocked, with its clamps. */
  function CompleteActive(v: Vad, clock: Clock, audio: seq<byte>, endByte: nat, endLevel: real): (Vad, Option<Segment>) {
    if v.activeSegment.None? then (v, None)
    else
      var start := v.segmentStartByte;
      var inside := if endByte > |audio| then |audio| else endByte;
      var end := if inside < start then start else inside;
      (v.(activeSegment := None, segmentStartByte := 0, segmentStartMs := 0, peakLevel := 0.0),
       Some(Segment(v.activeSegment.value, if end <= |audio| then audio[start..end] else [],
                    v.segmentStartMs, clock.milliseconds(end), endLevel, v.peakLevel)))
  }

  /** The effect of one chunk; audio already ends with its data. */
  function HearChunk(v: Vad, clock: Clock, audio: seq<byte>, c: Chunk): Heard
    requires |c.data| <= |audio|
  {
    var startByte := |audio| - |c.data|;
    if c.Speaking() then
      if !v.speechActive then
        Heard(Vad(true, 0, v.segmentSeq + 1, Some(v.segmentSeq + 1), startByte, clock.milliseconds(startByte), c.level),
              [SpeechStarted], None)
      else Heard(v.(silenceBytes := 0, peakLevel := MaxReal(v.peakLevel, c.level)), [], None)
    else if v.speechActive then
      var silence := v.silenceBytes + |c.data|;
      if clock.releases(silence) then
        var (after, completed) := CompleteActive(v.(speechActive := false, silenceBytes := 0), clock, audio, |audio|, c.level);
        Heard(after, [SpeechStopped], completed)
      else Heard(v.(silenceBytes := silence, peakLevel := MaxReal(v.peakLevel, c.level)), [], None)
    else Heard(v, [], None)
  }

  function MaxReal(a: real, b: real): real {
    if b > a then b else a
  }

  // ---- One stream ----

  function AudioOf(chunks: seq<Chunk>): seq<byte> {
    if chunks == [] then [] else AudioOf(chunks[..|chunks| - 1]) + chunks[|chunks| - 1].data
  }

  function ListOf<T>(o: Option<T>): seq<T> {
    match o
    case None => []
    case Some(x) => [x]
  }

  /** What has been heard of a stream so far. */
  datatype Stream = Stream(vad: Vad, events: seq<VadEvent>, segments: seq<Segment>)

  ghost function Hear(clock: Clock, chunks: seq<Chunk>): Stream {
    if chunks == [] then Stream(QUIET, [], [])
    else
      var s, audio := Hear(clock, chunks[..|chunks| - 1]), AudioOf(chunks);
      var h := HearChunk(s.vad, clock, audio, chunks[|chunks| - 1]);
      Stream(h.vad, s.events + h.events, s.segments + ListOf(h.completed))
  }

  /** The segments of a stream once it has been stopped. */
  ghost function SegmentsAtStop(clock: Clock, chunks: seq<Chunk>): seq<Segment> {
    var s, audio := Hear(clock, chunks), AudioOf(chunks);
    s.segments + ListOf(CompleteActive(s.vad, clock, audio, |audio|, 0.0).1)
  }

  // ---- What a segmentation is, without reference to any state ----

  /** The bytes of the silent chunks at the end. */
  function SilentTail(chunks: seq<Chunk>): nat {
    if chunks == [] || chunks[|chunks| - 1].Speaking() then 0
    else SilentTail(chunks[..|chunks| - 1]) + |chunks[|chunks| - 1].data|
  }

  ghost function LoudestLevel(chunks: seq<Chunk>): real {
    if chunks == [] then 0.0 else MaxReal(LoudestLevel(chunks[..|chunks| - 1]), chunks[|chunks| - 1].level)
  }

  ghost predicate Released(clock: Clock, chunks: seq<Chunk>) {
    clock.releases(SilentTail(chunks))
  }

  /** A run of chunks that starts with speech and that no silence has cut before its end. */
  ghost predicate Utterance(clock: Clock, run: seq<Chunk>) {
    && run != [] && run[0].Speaking()
    && forall j :: 0 < j < |run| ==> !Released(clock, run[..j])
  }

  /** No chunk is speech. */
  ghost predicate Silent(chunks: seq<Chunk>) {
    forall i :: 0 <= i < |chunks| ==> !chunks[i].Speaking()
  }

  /** A range of chunks, by position. */
  datatype Span = Span(from: nat, to: nat)

  /** The position after the last span. */
  function EndOf(spans: seq<Span>): nat {
    if spans == [] then 0 else spans[|spans| - 1].to
  }

  /** A stream that ends just where an utterance is released, after nothing but silence since position `after`. */
  ghost predicate EndsSpan(clock: Clock, heard: seq<Chunk>, after: nat, from: nat) {
    && after <= from < |heard|
    && Silent(heard[after..from])
    && Utterance(clock, heard[from..]) && Released(clock, heard[from..])
  }

  /** The segment that starts at `from` and ends with the stream. */
  ghost function SegmentOf(clock: Clock, heard: seq<Chunk>, id: nat, from: nat, endLevel: real): Segment
    requires from <= |heard|
  {
    Segment(id, AudioOf(heard[from..]), clock.milliseconds(|AudioOf(heard[..from])|),
            clock.milliseconds(|AudioOf(heard)|), endLevel, LoudestLevel(heard[from..]))
  }

  /**
   The spans of the segments of a stream, in order: each is an utterance up to the first long enough silence, only
   silence lies between them, and the k-th segment, numbered from one, is the audio of the k-th span.
   */
  ghost predicate AreSpans(clock: Clock, chunks: seq<Chunk>, spans: seq<Span>, segments: seq<Segment>) {
    && |segments| == |spans|
    && forall k :: 0 <= k < |spans| ==> IsSpan(clock, chunks, EndOf(spans[..k]), spans[k], k + 1, segments[k])
  }

  ghost predicate IsSpan(clock: Clock, chunks: seq<Chunk>, after: nat, span: Span, id: nat, segment: Segment) {
    && span.from < span.to <= |chunks|
    && EndsSpan(clock, chunks[..span.to], after, span.from)
    && segment == SegmentOf(clock, chunks[..span.to], id, span.from, chunks[span.to - 1].level)
  }

  /** n rounds of starting and stopping, and perhaps one more start. */
  function Rounds(n: nat): seq<VadEvent> {
    if n == 0 then [] else Rounds(n - 1) + [SpeechStarted, SpeechStopped]
  }

  function Alternating(rounds: nat, started: bool): seq<VadEvent> {
    if started then Rounds(rounds) + [SpeechStarted] else Rounds(rounds)
  }

  /** What the state says after some chunks: n segments are behind it, the last of them ending at `end`. */
  ghost predicate StateFits(clock: Clock, chunks: seq<Chunk>, v: Vad, events: seq<VadEvent>, n: nat, end: nat,
                            open: Option<nat>)
  {
    && end <= |chunks|
    && (v.speechActive <==> v.activeSegment.Some?)
    && events == Alternating(n, open.Some?)
    && match open
       case None => v.activeSegment.None? && v.segmentSeq == n && Silent(chunks[end..])
       case Some(from) =>
         && end <= from < |chunks| && Silent(chunks[end..from])
         && Utterance(clock, chunks[from..]) && !Released(clock, chunks[from..])
         && v.activeSegment == Some(n + 1) && v.segmentSeq == n + 1
         && v.silenceBytes == SilentTail(chunks[from..])
         && BeganAt(clock, chunks, v, from)
  }

  /** The open segment's own fields. */
  ghost predicate BeganAt(clock: Clock, chunks: seq<Chunk>, v: Vad, from: nat)
    requires from <= |chunks|
  {
    && v.segmentStartByte == |AudioOf(chunks[..from])|
    && v.segmentStartMs == clock.milliseconds(|AudioOf(chunks[..from])|)
    && v.peakLevel == LoudestLevel(chunks[from..])
  }

  /** All that holds of a stream after some chunks: open is the position where the current segment began. */
  ghost predicate Explained(clock: Clock, chunks: seq<Chunk>, s: Stream, spans: seq<Span>, open: Option<nat>) {
    && AreSpans(clock, chunks, spans, s.segments)
    && StateFits(clock, chunks, s.vad, s.events, |spans|, EndOf(spans), open)
  }

  lemma AudioOfOne(c: Chunk)
    ensures AudioOf([c]) == c.data
  {
    assert [c][..0] == [] && AudioOf([]) + c.data == c.data;
  }

  /** The silence at the end is all the audio since the last chunk of speech. */
  lemma {:induction false} SilentTailIsAudio(chunks: seq<Chunk>) returns (k: nat)
    ensures k <= |chunks| && Silent(chunks[k..]) && (k > 0 ==> chunks[k - 1].level >= 0.012)
    ensures SilentTail(chunks) == |AudioOf(chunks[k..])|
  {
    k := |chunks|;
    if chunks != [] && !chunks[|chunks| - 1].Speaking() {
      var n := |chunks| - 1;
      k := SilentTailIsAudio(chunks[..n]);
      assert chunks[k..][..n - k] == chunks[..n][k..] && chunks[k..][n - k] == chunks[n];
    }
  }

  /** The loudest level is no less than any, and one of them unless it is zero. */
  lemma {:induction false} LoudestIsLoudest(chunks: seq<Chunk>)
    ensures LoudestLevel(chunks) >= 0.0 && forall k :: 0 <= k < |chunks| ==> chunks[k].level <= LoudestLevel(chunks)
    ensures LoudestLevel(chunks) == 0.0 || exists k :: 0 <= k < |chunks| && chunks[k].level == LoudestLevel(chunks)
  {
    if chunks != [] {
      var n := |chunks| - 1;
      LoudestIsLoudest(chunks[..n]);
      if LoudestLevel(chunks) == chunks[n].level {
      } else if LoudestLevel(chunks) != 0.0 {
        var k :| 0 <= k < n && chunks[..n][k].level == LoudestLevel(chunks[..n]);
        assert chunks[k].level == LoudestLevel(chunks);
      }
    }
  }

  lemma {:induction false} AudioOfSplit(chunks: seq<Chunk>, i: nat)
    requires i <= |chunks|
    ensures AudioOf(chunks) == AudioOf(chunks[..i]) + AudioOf(chunks[i..])
  {
    if i == |chunks| {
      assert chunks[..i] == chunks;
    } else {
      var n := |chunks| - 1;
      AudioOfSplit(chunks[..n], i);
      assert chunks[..n][..i] == chunks[..i] && chunks[..n][i..] == chunks[i..][..n - i];
    }
  }

  /** One more chunk at the end of the ranges used below. */
  lemma RangesOfLonger(chunks: seq<Chunk>, c: Chunk, from: nat)
    requires from <= |chunks|
    ensures (chunks + [c])[from..] == chunks[from..] + [c]
    ensures (chunks + [c])[..from] == chunks[..from]
  {
  }

  lemma SilentTailSnoc(chunks: seq<Chunk>, c: Chunk)
    ensures SilentTail(chunks + [c]) == if c.Speaking() then 0 else SilentTail(chunks) + |c.data|
    ensures LoudestLevel(chunks + [c]) == MaxReal(LoudestLevel(chunks), c.level)
    ensures AudioOf(chunks + [c]) == AudioOf(chunks) + c.data
  {
    assert (chunks + [c])[..|chunks|] == chunks;
  }

  lemma UtteranceGrows(clock: Clock, run: seq<Chunk>, c: Chunk)
    requires Utterance(clock, run) && !Released(clock, run)
    ensures Utterance(clock, run + [c])
  {
    var longer := run + [c];
    forall j | 0 < j < |longer| ensures !Released(clock, longer[..j]) {
      RangesOfLonger(run, c, j);
      assert run[..|run|] == run;
    }
  }

  lemma {:induction false} SpeechIsLoud(chunks: seq<Chunk>)
    requires chunks != [] && chunks[0].Speaking()
    ensures LoudestLevel(chunks) >= SPEECH_THRESHOLD
  {
    if |chunks| > 1 {
      SpeechIsLoud(chunks[..|chunks| - 1]);
    } else {
      assert chunks[..0] == [];
    }
  }

  lemma SilentGrows(chunks: seq<Chunk>, c: Chunk)
    requires Silent(chunks) && !c.Speaking()
    ensures Silent(chunks + [c])
  {
  }

  // What one more chunk can do to the state.

  lemma SpeechOpens(clock: Clock, chunks: seq<Chunk>, c: Chunk, v: Vad, events: seq<VadEvent>, n: nat, end: nat)
    requires StateFits(clock, chunks, v, events, n, end, None) && c.Speaking() && !clock.releases(0)
    ensures var h := HearChunk(v, clock, AudioOf(chunks) + c.data, c);
            && h.completed == None
            && StateFits(clock, chunks + [c], h.vad, events + h.events, n, end, Some(|chunks|))
  {
    var h := HearChunk(v, clock, AudioOf(chunks) + c.data, c);
    assert h.vad.activeSegment == Some(n + 1) && h.events == [SpeechStarted];
    assert (chunks + [c])[end..|chunks|] == chunks[end..];
    OneLoudChunk(clock, chunks, c, h.vad);
  }

  /** A stream whose last chunk is the first of an utterance. */
  lemma OneLoudChunk(clock: Clock, chunks: seq<Chunk>, c: Chunk, v: Vad)
    requires c.Speaking() && !clock.releases(0)
    requires v.silenceBytes == 0 && v.peakLevel == c.level
    requires v.segmentStartByte == |AudioOf(chunks)| && v.segmentStartMs == clock.milliseconds(|AudioOf(chunks)|)
    ensures var longer, from := chunks + [c], |chunks|;
            && Utterance(clock, longer[from..]) && !Released(clock, longer[from..])
            && v.silenceBytes == SilentTail(longer[from..])
            && BeganAt(clock, longer, v, from)
  {
    var longer := chunks + [c];
    assert longer[|chunks|..] == [c] && longer[..|chunks|] == chunks;
    assert [c][..0] == [] && LoudestLevel([]) == 0.0;
  }

  /** An utterance that goes on, as far as the chunks are concerned. */
  lemma UtteranceGoesOn(clock: Clock, chunks: seq<Chunk>, c: Chunk, v: Vad, after: Vad, from: nat)
    requires from < |chunks| && Utterance(clock, chunks[from..]) && !Released(clock, chunks[from..])
    requires !Released(clock, chunks[from..] + [c])
    requires v.silenceBytes == SilentTail(chunks[from..]) && BeganAt(clock, chunks, v, from)
    requires after == v.(silenceBytes := if c.Speaking() then 0 else v.silenceBytes + |c.data|,
                         peakLevel := MaxReal(v.peakLevel, c.level))
    ensures var longer := chunks + [c];
            && Utterance(clock, longer[from..]) && !Released(clock, longer[from..])
            && after.silenceBytes == SilentTail(longer[from..]) && BeganAt(clock, longer, after, from)
  {
    RangesOfLonger(chunks, c, from);
    UtteranceGrows(clock, chunks[from..], c);
    SilentTailSnoc(chunks[from..], c);
  }

  lemma StateStaysOpen(clock: Clock, chunks: seq<Chunk>, c: Chunk, v: Vad, after: Vad, events: seq<VadEvent>, n: nat,
                       end: nat, from: nat)
    requires StateFits(clock, chunks, v, events, n, end, Some(from))
    requires !Released(clock, chunks[from..] + [c])
    requires after == v.(silenceBytes := if c.Speaking() then 0 else v.silenceBytes + |c.data|,
                         peakLevel := MaxReal(v.peakLevel, c.level))
    ensures StateFits(clock, chunks + [c], after, events, n, end, Some(from))
  {
    UtteranceGoesOn(clock, chunks, c, v, after, from);
    assert (chunks + [c])[end..from] == chunks[end..from];
  }

  /** What a chunk does to the state inside an utterance that it does not end, whatever the audio. */
  lemma HearingOn(v: Vad, clock: Clock, audio: seq<byte>, tail: seq<Chunk>, c: Chunk)
    requires |c.data| <= |audio| && v.speechActive
    requires v.silenceBytes == SilentTail(tail) && !Released(clock, tail + [c])
    ensures HearChunk(v, clock, audio, c)
            == Heard(v.(silenceBytes := if c.Speaking() then 0 else v.silenceBytes + |c.data|,
                        peakLevel := MaxReal(v.peakLevel, c.level)), [], None)
  {
    SilentTailSnoc(tail, c);
  }

  lemma OpenGoesOn(clock: Clock, chunks: seq<Chunk>, c: Chunk, v: Vad, events: seq<VadEvent>, n: nat, end: nat,
                   from: nat, audio: seq<byte>)
    requires StateFits(clock, chunks, v, events, n, end, Some(from)) && |c.data| <= |audio|
    requires !Released(clock, chunks[from..] + [c])
    ensures var h := HearChunk(v, clock, audio, c);
            && h.events == [] && h.completed == None
            && StateFits(clock, chunks + [c], h.vad, events, n, end, Some(from))
  {
    HearingOn(v, clock, audio, chunks[from..], c);
    StateStaysOpen(clock, chunks, c, v, HearChunk(v, clock, audio, c).vad, events, n, end, from);
  }

  lemma SilenceCloses(clock: Clock, chunks: seq<Chunk>, c: Chunk, v: Vad, events: seq<VadEvent>, n: nat, from: nat)
    requires from < |chunks| && chunks[from].Speaking() && BeganAt(clock, chunks, v, from)
    requires v.speechActive && v.activeSegment == Some(n + 1) && v.segmentSeq == n + 1
    requires v.silenceBytes == SilentTail(chunks[from..]) && events == Alternating(n, true)
    requires !clock.releases(0) && Released(clock, chunks[from..] + [c])
    ensures var h, longer := HearChunk(v, clock, AudioOf(chunks) + c.data, c), chunks + [c];
            && StateFits(clock, longer, h.vad, events + h.events, n + 1, |longer|, None)
            && h.completed == Some(SegmentOf(clock, longer, n + 1, from, c.level))
  {
    SilentTailSnoc(chunks[from..], c);
    assert !c.Speaking();
    var audio := AudioOf(chunks) + c.data;
    var quiet := v.(speechActive := false, silenceBytes := 0);
    ClosedSegment(clock, chunks, c, quiet, from, c.level);
    ClosingChunk(v, clock, audio, c);
    NothingFollows(clock, chunks + [c], HearChunk(v, clock, audio, c).vad, events, n);
  }

  lemma ClosingChunk(v: Vad, clock: Clock, audio: seq<byte>, c: Chunk)
    requires |c.data| <= |audio| && v.speechActive && v.activeSegment.Some? && !c.Speaking()
    requires clock.releases(v.silenceBytes + |c.data|)
    ensures var h := HearChunk(v, clock, audio, c);
            && h.events == [SpeechStopped]
            && h.completed == CompleteActive(v.(speechActive := false, silenceBytes := 0), clock, audio, |audio|, c.level).1
            && !h.vad.speechActive && h.vad.activeSegment.None? && h.vad.segmentSeq == v.segmentSeq
  {
  }

  lemma NothingFollows(clock: Clock, chunks: seq<Chunk>, v: Vad, events: seq<VadEvent>, n: nat)
    requires !v.speechActive && v.activeSegment.None? && v.segmentSeq == n + 1 && events == Alternating(n, true)
    ensures StateFits(clock, chunks, v, events + [SpeechStopped], n + 1, |chunks|, None)
  {
    assert Rounds(n) + [SpeechStarted] + [SpeechStopped] == Rounds(n) + [SpeechStarted, SpeechStopped];
    assert chunks[|chunks|..] == [];
  }

  /** Completing the open segment with a silent chunk gives the segment of its span. */
  lemma ClosedSegment(clock: Clock, chunks: seq<Chunk>, c: Chunk, v: Vad, from: nat, endLevel: real)
    requires from < |chunks| && chunks[from].Speaking() && !c.Speaking()
    requires v.activeSegment.Some? && BeganAt(clock, chunks, v, from)
    ensures var longer, audio := chunks + [c], AudioOf(chunks) + c.data;
            CompleteActive(v, clock, audio, |audio|, endLevel).1
            == Some(SegmentOf(clock, longer, v.activeSegment.value, from, endLevel))
  {
    RangesOfLonger(chunks, c, from);
    SilentTailSnoc(chunks, c);
    SilentTailSnoc(chunks[from..], c);
    SpeechIsLoud(chunks[from..]);
    StopSegment(clock, chunks + [c], v, from, endLevel);
  }

  /** The same at the end of the stream; in both cases none of the clamps is needed. */
  lemma StopSegment(clock: Clock, chunks: seq<Chunk>, v: Vad, from: nat, endLevel: real)
    requires from < |chunks| && v.activeSegment.Some? && BeganAt(clock, chunks, v, from)
    ensures var audio := AudioOf(chunks);
            && v.segmentStartByte <= |audio|
            && CompleteActive(v, clock, audio, |audio|, endLevel).1
               == Some(SegmentOf(clock, chunks, v.activeSegment.value, from, endLevel))
  {
    AudioOfSplit(chunks, from);
    var audio, before := AudioOf(chunks), AudioOf(chunks[..from]);
    assert audio[|before|..|audio|] == AudioOf(chunks[from..]);
  }

  lemma SilenceStays(clock: Clock, chunks: seq<Chunk>, c: Chunk, v: Vad, events: seq<VadEvent>, n: nat, end: nat)
    requires StateFits(clock, chunks, v, events, n, end, None) && !c.Speaking()
    ensures HearChunk(v, clock, AudioOf(chunks) + c.data, c) == Heard(v, [], None)
    ensures StateFits(clock, chunks + [c], v, events, n, end, None)
  {
    RangesOfLonger(chunks, c, end);
    SilentGrows(chunks[end..], c);
  }

  /** More chunks do not change what is known of the earlier spans. */
  lemma SpansSurvive(clock: Clock, chunks: seq<Chunk>, c: Chunk, spans: seq<Span>, segments: seq<Segment>)
    requires AreSpans(clock, chunks, spans, segments)
    ensures AreSpans(clock, chunks + [c], spans, segments)
  {
    forall k | 0 <= k < |spans|
      ensures IsSpan(clock, chunks + [c], EndOf(spans[..k]), spans[k], k + 1, segments[k])
    {
      assert IsSpan(clock, chunks, EndOf(spans[..k]), spans[k], k + 1, segments[k]);
      RangesOfLonger(chunks, c, spans[k].to);
    }
  }

  /** A further span, closed by the last chunk. */
  lemma SpanCloses(clock: Clock, chunks: seq<Chunk>, spans: seq<Span>, segments: seq<Segment>, from: nat)
    requires AreSpans(clock, chunks, spans, segments) && EndsSpan(clock, chunks, EndOf(spans), from)
    ensures AreSpans(clock, chunks, spans + [Span(from, |chunks|)],
              segments + [SegmentOf(clock, chunks, |spans| + 1, from, chunks[|chunks| - 1].level)])
  {
    var all := spans + [Span(from, |chunks|)];
    var more := segments + [SegmentOf(clock, chunks, |spans| + 1, from, chunks[|chunks| - 1].level)];
    assert chunks[..|chunks|] == chunks;
    forall k | 0 <= k < |all| ensures IsSpan(clock, chunks, EndOf(all[..k]), all[k], k + 1, more[k]) {
      assert all[..k] == spans[..k];
      if k < |spans| {
        assert IsSpan(clock, chunks, EndOf(spans[..k]), spans[k], k + 1, segments[k]);
      } else {
        assert spans[..k] == spans;
      }
    }
  }

  /** What hearing one more chunk makes of a stream. */
  ghost function HearMore(clock: Clock, chunks: seq<Chunk>, s: Stream, c: Chunk): Stream {
    var h := HearChunk(s.vad, clock, AudioOf(chunks) + c.data, c);
    Stream(h.vad, s.events + h.events, s.segments + ListOf(h.completed))
  }

  lemma GrowsClosed(clock: Clock, chunks: seq<Chunk>, c: Chunk, s: Stream, spans: seq<Span>) returns (open: Option<nat>)
    requires Explained(clock, chunks, s, spans, None) && !clock.releases(0)
    ensures Explained(clock, chunks + [c], HearMore(clock, chunks, s, c), spans, open)
  {
    SpansSurvive(clock, chunks, c, spans, s.segments);
    assert s.segments + [] == s.segments && s.events + [] == s.events;
    if c.Speaking() {
      SpeechOpens(clock, chunks, c, s.vad, s.events, |spans|, EndOf(spans));
      open := Some(|chunks|);
    } else {
      SilenceStays(clock, chunks, c, s.vad, s.events, |spans|, EndOf(spans));
      open := None;
    }
  }

  lemma GrowsOpen(clock: Clock, chunks: seq<Chunk>, c: Chunk, s: Stream, spans: seq<Span>, from: nat)
    requires Explained(clock, chunks, s, spans, Some(from)) && !clock.releases(0)
    requires !Released(clock, chunks[from..] + [c])
    ensures Explained(clock, chunks + [c], HearMore(clock, chunks, s, c), spans, Some(from))
  {
    SpansSurvive(clock, chunks, c, spans, s.segments);
    assert s.segments + [] == s.segments && s.events + [] == s.events;
    OpenGoesOn(clock, chunks, c, s.vad, s.events, |spans|, EndOf(spans), from, AudioOf(chunks) + c.data);
  }

  lemma Closes(clock: Clock, chunks: seq<Chunk>, c: Chunk, s: Stream, spans: seq<Span>, from: nat)
    requires Explained(clock, chunks, s, spans, Some(from)) && !clock.releases(0)
    requires Released(clock, chunks[from..] + [c])
    ensures Explained(clock, chunks + [c], HearMore(clock, chunks, s, c), spans + [Span(from, |chunks| + 1)], None)
  {
    SpansSurvive(clock, chunks, c, spans, s.segments);
    SilenceCloses(clock, chunks, c, s.vad, s.events, |spans|, from);
    SpanEnds(clock, chunks, c, EndOf(spans), from);
    SpanCloses(clock, chunks + [c], spans, s.segments, from);
    var last := SegmentOf(clock, chunks + [c], |spans| + 1, from, c.level);
    assert HearMore(clock, chunks, s, c).segments == s.segments + [last];
    var all := spans + [Span(from, |chunks| + 1)];
    assert |all| == |spans| + 1 && EndOf(all) == |chunks + [c]|;
  }

  lemma SpanEnds(clock: Clock, chunks: seq<Chunk>, c: Chunk, after: nat, from: nat)
    requires after <= from < |chunks| && Silent(chunks[after..from])
    requires Utterance(clock, chunks[from..]) && !Released(clock, chunks[from..])
    requires Released(clock, chunks[from..] + [c])
    ensures EndsSpan(clock, chunks + [c], after, from)
  {
    UtteranceGrows(clock, chunks[from..], c);
    RangesOfLonger(chunks, c, from);
    assert (chunks + [c])[after..from] == chunks[after..from];
  }

  lemma ExplanationGrows(clock: Clock, before: seq<Chunk>, c: Chunk, s: Stream, chunks: seq<Chunk>, after: Stream,
                         spans: seq<Span>, open: Option<nat>)
    returns (spans': seq<Span>, open': Option<nat>)
    requires Explained(clock, before, s, spans, open) && !clock.releases(0)
    requires chunks == before + [c] && after == HearMore(clock, before, s, c)
    ensures Explained(clock, chunks, after, spans', open')
  {
    spans', open' := spans, open;
    if open.None? {
      open' := GrowsClosed(clock, before, c, s, spans);
    } else if Released(clock, before[open.value..] + [c]) {
      Closes(clock, before, c, s, spans, open.value);
      spans', open' := spans + [Span(open.value, |before| + 1)], None;
    } else {
      GrowsOpen(clock, before, c, s, spans, open.value);
    }
  }

  /**
   For every stream of chunks: the segments are exactly the ranges that start with speech and end at the first
   silence of 220 ms, only silence lies between them, each segment is the exact audio of its range, started and
   stopped events alternate, and a segment is active exactly while speech is.
   */
  lemma {:induction false} StreamIsExplained(clock: Clock, chunks: seq<Chunk>)
    returns (spans: seq<Span>, open: Option<nat>)
    requires !clock.releases(0)
    ensures Explained(clock, chunks, Hear(clock, chunks), spans, open)
  {
    if chunks == [] {
      spans, open := [], None;
      NothingHeard(clock);
    } else {
      var n := |chunks| - 1;
      spans, open := StreamIsExplained(clock, chunks[..n]);
      HearSnoc(clock, chunks);
      InitAndLast(chunks);
      spans, open := ExplanationGrows(clock, chunks[..n], chunks[n], Hear(clock, chunks[..n]),
                                      chunks, Hear(clock, chunks), spans, open);
    }
  }

  lemma InitAndLast(chunks: seq<Chunk>)
    requires chunks != []
    ensures chunks == chunks[..|chunks| - 1] + [chunks[|chunks| - 1]]
  {
  }

  lemma NothingHeard(clock: Clock)
    ensures Explained(clock, [], Stream(QUIET, [], []), [], None)
  {
  }

  lemma HearSnoc(clock: Clock, chunks: seq<Chunk>)
    requires chunks != []
    ensures var n := |chunks| - 1;
            Hear(clock, chunks) == HearMore(clock, chunks[..n], Hear(clock, chunks[..n]), chunks[n])
  {
  }

  // ---- What this means for a stopped stream ----

  /** The spans of a stopped stream: the one still open runs to the end. */
  function WithOpen(spans: seq<Span>, open: Option<nat>, length: nat): seq<Span> {
    if open.None? then spans else spans + [Span(open.value, length)]
  }

  /** Disjoint non-empty ranges in increasing order, with only silence before, between and after them. */
  ghost predicate Separated(chunks: seq<Chunk>, spans: seq<Span>) {
    && (forall k :: 0 <= k < |spans| ==> SeparatedAt(chunks, EndOf(spans[..k]), spans[k]))
    && EndOf(spans) <= |chunks| && Silent(chunks[EndOf(spans)..])
  }

  ghost predicate SeparatedAt(chunks: seq<Chunk>, after: nat, span: Span) {
    after <= span.from < span.to <= |chunks| && Silent(chunks[after..span.from])
  }

  ghost predicate Covers(span: Span, i: nat) {
    span.from <= i < span.to
  }

  lemma SpanIsSeparated(clock: Clock, chunks: seq<Chunk>, after: nat, span: Span, id: nat, segment: Segment)
    requires IsSpan(clock, chunks, after, span, id, segment)
    ensures SeparatedAt(chunks, after, span)
  {
    assert chunks[..span.to][after..span.from] == chunks[after..span.from];
  }

  lemma SpansAreSeparated(clock: Clock, chunks: seq<Chunk>, spans: seq<Span>, segments: seq<Segment>)
    requires AreSpans(clock, chunks, spans, segments)
    ensures forall k :: 0 <= k < |spans| ==> SeparatedAt(chunks, EndOf(spans[..k]), spans[k])
  {
    forall k | 0 <= k < |spans| ensures SeparatedAt(chunks, EndOf(spans[..k]), spans[k]) {
      SpanIsSeparated(clock, chunks, EndOf(spans[..k]), spans[k], k + 1, segments[k]);
    }
  }

  lemma SeparatedSnoc(chunks: seq<Chunk>, spans: seq<Span>, last: Span)
    requires forall k :: 0 <= k < |spans| ==> SeparatedAt(chunks, EndOf(spans[..k]), spans[k])
    requires SeparatedAt(chunks, EndOf(spans), last) && last.to == |chunks|
    ensures Separated(chunks, spans + [last])
  {
    var all := spans + [last];
    forall k | 0 <= k < |all| ensures SeparatedAt(chunks, EndOf(all[..k]), all[k]) {
      assert all[..k] == spans[..k];
      assert k == |spans| ==> spans[..k] == spans;
    }
    assert chunks[|chunks|..] == [];
  }

  lemma StoppedStreamIsSeparated(clock: Clock, chunks: seq<Chunk>, s: Stream, spans: seq<Span>, open: Option<nat>)
    requires Explained(clock, chunks, s, spans, open)
    ensures Separated(chunks, WithOpen(spans, open, |chunks|))
  {
    SpansAreSeparated(clock, chunks, spans, s.segments);
    if open.Some? {
      SeparatedSnoc(chunks, spans, Span(open.value, |chunks|));
    }
  }

  lemma {:induction false} EarlierEndsFirst(chunks: seq<Chunk>, spans: seq<Span>, j: nat, k: nat)
    requires Separated(chunks, spans) && j < k < |spans|
    ensures spans[j].to <= spans[k].from
    decreases k
  {
    assert SeparatedAt(chunks, EndOf(spans[..k]), spans[k]);
    if j < k - 1 {
      EarlierEndsFirst(chunks, spans, j, k - 1);
      assert SeparatedAt(chunks, EndOf(spans[..k - 1]), spans[k - 1]);
    }
  }

  /** Every chunk of speech lies in exactly one segment of a stopped stream. */
  lemma SpeechIsInExactlyOneSpan(chunks: seq<Chunk>, spans: seq<Span>, i: nat) returns (k: nat)
    requires Separated(chunks, spans) && i < |chunks| && chunks[i].Speaking()
    ensures k < |spans| && Covers(spans[k], i)
    ensures forall j :: 0 <= j < |spans| && Covers(spans[j], i) ==> j == k
  {
    k := FirstEndingAfter(chunks, spans, i);
    SilenceBefore(chunks, spans, k);
    forall j | 0 <= j < |spans| && Covers(spans[j], i) ensures j == k {
      if j < k {
        EarlierEndsFirst(chunks, spans, j, k);
      } else if j > k {
        EarlierEndsFirst(chunks, spans, k, j);
      }
    }
  }

  lemma FirstEndingAfter(chunks: seq<Chunk>, spans: seq<Span>, i: nat) returns (k: nat)
    ensures k <= |spans| && EndOf(spans[..k]) <= i && (k < |spans| ==> i < spans[k].to)
  {
    k := 0;
    while k < |spans| && spans[k].to <= i
      invariant k <= |spans| && (k > 0 ==> spans[k - 1].to <= i)
    {
      k := k + 1;
    }
  }

  lemma NoSpeechIn(chunks: seq<Chunk>, after: nat, from: nat)
    requires after <= from <= |chunks| && Silent(chunks[after..from])
    ensures forall i :: after <= i < from ==> !chunks[i].Speaking()
  {
    forall i | after <= i < from ensures !chunks[i].Speaking() {
      assert chunks[after..from][i - after] == chunks[i];
    }
  }

  /** Before the k-th span, or after the last one, there is silence. */
  lemma SilenceBefore(chunks: seq<Chunk>, spans: seq<Span>, k: nat)
    requires Separated(chunks, spans) && k <= |spans|
    ensures var from := if k < |spans| then spans[k].from else |chunks|;
            forall i :: EndOf(spans[..k]) <= i < from && i < |chunks| ==> !chunks[i].Speaking()
  {
    if k < |spans| {
      assert SeparatedAt(chunks, EndOf(spans[..k]), spans[k]);
      NoSpeechIn(chunks, EndOf(spans[..k]), spans[k].from);
    } else {
      assert spans[..k] == spans;
      NoSpeechIn(chunks, EndOf(spans), |chunks|);
    }
  }

  /** The segments of a stopped stream are exactly those of its spans; the last one may end without its silence. */
  lemma StoppedSegments(clock: Clock, chunks: seq<Chunk>, spans: seq<Span>, open: Option<nat>)
    requires Explained(clock, chunks, Hear(clock, chunks), spans, open)
    ensures SegmentsAtStop(clock, chunks)
            == Hear(clock, chunks).segments
               + if open.None? then [] else [SegmentOf(clock, chunks, |spans| + 1, open.value, 0.0)]
  {
    if open.Some? {
      StopSegment(clock, chunks, Hear(clock, chunks).vad, open.value, 0.0);
    }
  }

  /** A segment begins with speech, which takes a sample, so it is never empty. */
  lemma SegmentsHaveAudio(clock: Clock, chunks: seq<Chunk>, s: Stream, spans: seq<Span>, open: Option<nat>, k: nat)
    requires Explained(clock, chunks, s, spans, open) && k < |s.segments|
    requires forall c :: c in chunks ==> c.Valid()
    ensures |s.segments[k].audio| >= 2
  {
    var span := spans[k];
    assert IsSpan(clock, chunks, EndOf(spans[..k]), span, k + 1, s.segments[k]);
    var heard := chunks[..span.to];
    assert heard[span.from..][0] == chunks[span.from] && chunks[span.from] in chunks;
    SpeechHasSamples(heard[span.from..]);
  }

  lemma SpeechHasSamples(run: seq<Chunk>)
    requires run != [] && run[0].Speaking() && run[0].Valid()
    ensures |AudioOf(run)| >= 2
  {
    AudioOfSplit(run, 1);
    SilentTailSnoc([], run[0]);
    assert run[..1] == [] + [run[0]];
  }

  // ---- Speech that goes on when a stream ends ----

  ghost predicate HearsSpeech(chunks: seq<Chunk>) {
    exists i :: 0 <= i < |chunks| && chunks[i].Speaking()
  }

  /** There has been speech, and the silence since is not long enough to end a segment. */
  ghost predicate StillSpeaking(clock: Clock, chunks: seq<Chunk>) {
    HearsSpeech(chunks) && !clock.releases(SilentTail(chunks))
  }

  /** More silence ends a segment if less does, and none does not. */
  ghost predicate IsClock(clock: Clock) {
    !clock.releases(0) && forall a: nat, b: nat :: a <= b && clock.releases(a) ==> clock.releases(b)
  }

  lemma FormatsHaveClocks(format: AudioFormat)
    ensures IsClock(ToClock(format))
  {
  }

  /** The events alternate, beginning with a start. */
  ghost predicate InTurn(events: seq<VadEvent>) {
    && (events != [] ==> events[0] == SpeechStarted)
    && forall k :: 0 < k < |events| ==> events[k] != events[k - 1]
  }

  ghost predicate EndsWithStart(events: seq<VadEvent>) {
    events != [] && events[|events| - 1] == SpeechStarted
  }

  lemma InTurnAppends(a: seq<VadEvent>, b: seq<VadEvent>)
    requires InTurn(b)
    ensures InTurn(a + b) <==> InTurn(a) && (b == [] || !EndsWithStart(a))
    ensures EndsWithStart(a + b) <==> if b == [] then EndsWithStart(a) else EndsWithStart(b)
  {
    var all := a + b;
    assert forall k :: 0 <= k < |a| ==> all[k] == a[k];
    assert forall k :: |a| <= k < |all| ==> all[k] == b[k - |a|];
    if InTurn(all) {
      forall k | 0 < k < |a| ensures a[k] != a[k - 1] {
        assert all[k] != all[k - 1];
      }
      if a != [] {
        assert all[0] == a[0];
      }
    }
    if b != [] && a != [] {
      assert all[|a|] == b[0] == SpeechStarted && all[|a| - 1] == a[|a| - 1];
      if EndsWithStart(a) {
        assert all[|a|] == all[|a| - 1];
      }
    }
  }

  /** The events of one stream in terms of its chunks alone. */
  ghost predicate EventsTell(clock: Clock, chunks: seq<Chunk>, v: Vad, events: seq<VadEvent>) {
    && (v.speechActive <==> StillSpeaking(clock, chunks))
    && (v.speechActive ==> v.silenceBytes == SilentTail(chunks))
    && InTurn(events) && (events != [] <==> HearsSpeech(chunks)) && (EndsWithStart(events) <==> v.speechActive)
  }

  lemma HearsSpeechSnoc(chunks: seq<Chunk>, c: Chunk)
    ensures HearsSpeech(chunks + [c]) <==> HearsSpeech(chunks) || c.Speaking()
  {
    var longer := chunks + [c];
    assert longer[|chunks|] == c && forall i :: 0 <= i < |chunks| ==> longer[i] == chunks[i];
    if HearsSpeech(chunks) {
      var i :| 0 <= i < |chunks| && chunks[i].Speaking();
      assert longer[i].Speaking();
    }
  }

  lemma EventsTellMore(clock: Clock, chunks: seq<Chunk>, c: Chunk, v: Vad, events: seq<VadEvent>, audio: seq<byte>)
    requires IsClock(clock) && EventsTell(clock, chunks, v, events) && |c.data| <= |audio|
    ensures var h := HearChunk(v, clock, audio, c); EventsTell(clock, chunks + [c], h.vad, events + h.events)
  {
    var h := HearChunk(v, clock, audio, c);
    HearsSpeechSnoc(chunks, c);
    SilentTailSnoc(chunks, c);
    InTurnAppends(events, []);
    assert events + [] == events;
    if h.events == [SpeechStarted] {
      InTurnAppends(events, [SpeechStarted]);
    } else if h.events == [SpeechStopped] {
      StopIsInTurn(events);
    }
  }

  lemma StopIsInTurn(events: seq<VadEvent>)
    requires InTurn(events) && EndsWithStart(events)
    ensures InTurn(events + [SpeechStopped]) && !EndsWithStart(events + [SpeechStopped])
  {
  }

  /**
   Within a stream started and stopped alternate; there is an event if and only if there is speech, and the last one
   is an unanswered start if and only if the stream breaks off while speech goes on.
   */
  lemma {:induction false} StreamEventsTell(clock: Clock, chunks: seq<Chunk>)
    requires IsClock(clock)
    ensures EventsTell(clock, chunks, Hear(clock, chunks).vad, Hear(clock, chunks).events)
  {
    if chunks != [] {
      var n := |chunks| - 1;
      StreamEventsTell(clock, chunks[..n]);
      InitAndLast(chunks);
      HearSnoc(clock, chunks);
      SilentTailSnoc(chunks[..n], chunks[n]);
      var s := Hear(clock, chunks[..n]);
      EventsTellMore(clock, chunks[..n], chunks[n], s.vad, s.events, AudioOf(chunks[..n]) + chunks[n].data);
    }
  }

  /** So a segment is open at the end of a stream if and only if the stream breaks off while speech goes on. */
  lemma OpenIffStillSpeaking(clock: Clock, chunks: seq<Chunk>, spans: seq<Span>, open: Option<nat>)
    requires IsClock(clock) && Explained(clock, chunks, Hear(clock, chunks), spans, open)
    ensures open.Some? <==> StillSpeaking(clock, chunks)
  {
    StreamEventsTell(clock, chunks);
  }
}
