/**
 Speaking the segments of one reply, each on a stream of its own: runRealtimeTTS
 (internal/voicews/session.go:1291-1369 and 2448-2459), as a loop over the segments it takes from its channel.
 */
module RealtimeTTS {
  import opened Common
  import opened Bytes
  import opened AudioFormats
  import opened Text
  import opened StreamTracker
  import opened Outbound
  import opened Streams
  import Pipeline

  type Script = Pipeline.Script<AudioChunk>

  /** A segment taken from the channel: whether the context is cancelled by then, and what the provider will do. */
  datatype Job = Job(text: string, cancelled: bool, script: Script) {
    predicate Speakable() {
      Trim(text) != ""
    }
  }

  datatype Failure = ContextCancelled | SynthesisFailed | NoAudio

  /** realtimeTTSResult */
  datatype Outcome = Outcome(chunkCount: nat, audioBytes: nat, format: AudioFormat, err: Option<Failure>)

  /** mergeAudioFormat */
  function Merge(current: AudioFormat, next: AudioFormat): AudioFormat {
    AudioFormat(if Trim(next.codec) != "" then next.codec else current.codec,
                if next.sampleRateHz > 0 then next.sampleRateHz else current.sampleRateHz,
                if next.channels > 0 then next.channels else current.channels)
  }

  /** A stream in this format can be announced: its tts.start passes validation. */
  predicate CanAnnounce(format: AudioFormat) {
    format.codec == PCM_S16LE && format.sampleRateHz > 0 && format.channels > 0
  }

  function StartOf(id: string, format: AudioFormat): AudioStart {
    AudioStart(id, format.codec, format.sampleRateHz, format.channels)
  }

  // ---- What is said, without reference to the loops ----

  function MergeAll(format: AudioFormat, chunks: seq<AudioChunk>): AudioFormat {
    if chunks == [] then format else Merge(MergeAll(format, chunks[..|chunks| - 1]), chunks[|chunks| - 1].format)
  }

  function Frames(chunks: seq<AudioChunk>): seq<Event> {
    if chunks == [] then [] else Frames(chunks[..|chunks| - 1]) + [TtsChunk(chunks[|chunks| - 1].data)]
  }

  function Size(chunks: seq<AudioChunk>): nat {
    if chunks == [] then 0 else Size(chunks[..|chunks| - 1]) + |chunks[|chunks| - 1].data|
  }

  /** By the k-th chunk the format can be announced. */
  predicate Announces(format: AudioFormat, chunks: seq<AudioChunk>, k: nat)
    requires k < |chunks|
  {
    CanAnnounce(MergeAll(format, chunks[..k + 1]))
  }

  /** The first chunk from the i-th on by which the format can be announced; it opens the stream. */
  function Opening(format: AudioFormat, chunks: seq<AudioChunk>, i: nat): (at: nat)
    requires i <= |chunks|
    ensures i <= at <= |chunks|
    ensures forall k :: i <= k < at ==> !Announces(format, chunks, k)
    ensures at < |chunks| ==> Announces(format, chunks, at)
    decreases |chunks| - i
  {
    if i == |chunks| || Announces(format, chunks, i) then i else Opening(format, chunks, i + 1)
  }

  /** What the first i chunks of a segment write when the one at `at` opens its stream; earlier ones are refused. */
  function OpenLog(id: string, format: AudioFormat, chunks: seq<AudioChunk>, at: nat, i: nat): seq<Event>
    requires i <= |chunks|
  {
    if i <= at then [] else [TtsStart(StartOf(id, MergeAll(format, chunks[..at + 1])))] + Frames(chunks[at..i])
  }

  /** The first of the chunks from i to at whose refusal the provider does not tolerate. */
  function Intolerant(script: Script, i: nat, at: nat): (k: nat)
    requires i <= at <= |script.toleratesRefusals|
    ensures i <= k <= at
    ensures forall j :: i <= j < k ==> script.toleratesRefusals[j]
    ensures k < at ==> !script.toleratesRefusals[k]
    decreases at - i
  {
    if i == at || !script.toleratesRefusals[i] then i else Intolerant(script, i + 1, at)
  }

  /** The provider gives up over a chunk before the opening. */
  predicate GivesUp(format: AudioFormat, script: Script)
    requires |script.toleratesRefusals| == |script.items|
  {
    var at := Opening(format, script.items, 0);
    Intolerant(script, 0, at) < at
  }

  /** How many chunks are called back: all of them, or those up to the one the provider gives up over. */
  function Calls(format: AudioFormat, script: Script): (calls: nat)
    requires |script.toleratesRefusals| == |script.items|
    ensures calls <= |script.items|
  {
    if GivesUp(format, script) then Intolerant(script, 0, Opening(format, script.items, 0)) + 1 else |script.items|
  }

  /** Everything a segment writes: its stream, closed with the number of its frames. */
  function SegmentLog(id: string, format: AudioFormat, script: Script): seq<Event>
    requires |script.toleratesRefusals| == |script.items|
  {
    var at, n := Opening(format, script.items, 0), |script.items|;
    OpenLog(id, format, script.items, at, Calls(format, script))
    + if at < Calls(format, script) then [TtsStop(AudioStop(id, n - at))] else []
  }

  function ErrorOf(format: AudioFormat, script: Script): Option<Failure>
    requires |script.toleratesRefusals| == |script.items|
  {
    if !script.succeeds || GivesUp(format, script) then Some(SynthesisFailed)
    else if Opening(format, script.items, 0) == |script.items| then Some(NoAudio)
    else None
  }

  /** The result after the first i chunks of a segment; only those sent, from the one at `at` on, are counted. */
  function Heard(result: Outcome, chunks: seq<AudioChunk>, at: nat, i: nat): Outcome
    requires i <= |chunks|
  {
    if i <= at then result.(format := MergeAll(result.format, chunks[..i]))
    else Outcome(result.chunkCount + (i - at), result.audioBytes + Size(chunks[at..i]),
                 MergeAll(result.format, chunks[..i]), result.err)
  }

  /** The result after a segment. */
  function Spoken(result: Outcome, script: Script): Outcome
    requires |script.toleratesRefusals| == |script.items|
  {
    Heard(result, script.items, Opening(result.format, script.items, 0), Calls(result.format, script))
    .(err := ErrorOf(result.format, script))
  }

  /** Where the loop stands between two segments: the names given out, and the result so far. */
  datatype Point = Point(counter: nat, result: Outcome)

  /** One segment takes the loop from p to q and writes log; its stream is closed even if the synthesis fails. */
  ghost predicate Says(p: Point, job: Job, log: seq<Event>, q: Point)
    requires job.script.Valid()
  {
    if !job.Speakable() then log == [] && q == p
    else
      && !job.cancelled && q.counter == p.counter + 1
      && log == SegmentLog(Pipeline.IdText("tts", q.counter), p.result.format, job.script)
      && q.result == Spoken(p.result, job.script)
  }

  ghost predicate AllValid(jobs: seq<Job>) {
    forall k :: 0 <= k < |jobs| ==> jobs[k].script.Valid()
  }

  /** The points between the segments, and what each of them writes. */
  ghost predicate AllSaid(jobs: seq<Job>, points: seq<Point>, logs: seq<seq<Event>>)
    requires AllValid(jobs)
  {
    && |points| == |jobs| + 1 && |logs| == |jobs|
    && forall k :: 0 <= k < |jobs| ==> Says(points[k], jobs[k], logs[k], points[k + 1])
  }

  lemma OneMoreSaid(jobs: seq<Job>, i: nat, points: seq<Point>, logs: seq<seq<Event>>, log: seq<Event>, q: Point)
    requires AllValid(jobs) && i < |jobs| && AllSaid(jobs[..i], points, logs) && Says(points[i], jobs[i], log, q)
    ensures AllSaid(jobs[..i + 1], points + [q], logs + [log])
  {
    var js, ps, ls := jobs[..i + 1], points + [q], logs + [log];
    forall k | 0 <= k < |js| ensures Says(ps[k], js[k], ls[k], ps[k + 1]) {
      if k < i {
        assert Says(points[k], jobs[..i][k], logs[k], points[k + 1]);
      }
    }
  }

  // ---- What a segment says, in words ----

  /** A format that validation lets through. */
  ghost predicate Passes(format: AudioFormat) {
    format.codec == "pcm_s16le" && format.sampleRateHz > 0 && format.channels > 0
  }

  /** One chunk's format taken over: a codec that is not blank, a rate and a number of channels above zero. */
  lemma MergeTakesWhatIsSet(current: AudioFormat, next: AudioFormat)
    ensures var merged := Merge(current, next);
            && merged.codec == (if AllSpace(next.codec) then current.codec else next.codec)
            && merged.sampleRateHz == (if next.sampleRateHz <= 0 then current.sampleRateHz else next.sampleRateHz)
            && merged.channels == (if next.channels <= 0 then current.channels else next.channels)
  {
    TrimBlank(next.codec);
  }

  /** So where every chunk names a whole format, the last one's is the format. */
  lemma LastFormatWins(format: AudioFormat, chunks: seq<AudioChunk>)
    requires chunks != [] && Passes(chunks[|chunks| - 1].format)
    ensures MergeAll(format, chunks) == chunks[|chunks| - 1].format
  {
    MergeTakesWhatIsSet(MergeAll(format, chunks[..|chunks| - 1]), chunks[|chunks| - 1].format);
    assert !IsSpace("pcm_s16le"[0]);
  }

  /** And where none names anything, the format stays. */
  lemma {:induction false} NoFormatChangesNothing(format: AudioFormat, chunks: seq<AudioChunk>)
    requires forall k :: 0 <= k < |chunks| ==> chunks[k].format == NO_FORMAT
    ensures MergeAll(format, chunks) == format
  {
    if chunks != [] {
      NoFormatChangesNothing(format, chunks[..|chunks| - 1]);
      MergeTakesWhatIsSet(format, NO_FORMAT);
    }
  }

  /** The stream opens at the first chunk by which the format passes validation. */
  lemma OpensWhenItPasses(format: AudioFormat, chunks: seq<AudioChunk>)
    ensures var at := Opening(format, chunks, 0);
            && (forall k :: 0 <= k < at ==> !PassesWith(format, chunks, k))
            && (at < |chunks| ==> PassesWith(format, chunks, at))
  {
    var at := Opening(format, chunks, 0);
    forall k | 0 <= k < at ensures !PassesWith(format, chunks, k) {
      assert !Announces(format, chunks, k);
    }
  }

  /** The format passes validation when the k-th chunk has been heard. */
  ghost predicate PassesWith(format: AudioFormat, chunks: seq<AudioChunk>, k: nat)
    requires k < |chunks|
  {
    Passes(MergeAll(format, chunks[..k + 1]))
  }

  /** The provider does not mind that the chunks before the opening are refused. */
  ghost predicate GoesOn(script: Script, at: nat)
    requires at <= |script.toleratesRefusals|
  {
    forall k :: 0 <= k < at ==> script.toleratesRefusals[k]
  }

  /**
   A segment whose stream opens writes its start in the format of that moment, each chunk from there on, in order, and
   the stop with their number; any other writes nothing.
   */
  lemma SegmentInWords(id: string, format: AudioFormat, script: Script)
    requires script.Valid()
    ensures var at, n, log := Opening(format, script.items, 0), |script.items|, SegmentLog(id, format, script);
            if at < n && GoesOn(script, at) then
              var m := MergeAll(format, script.items[..at + 1]);
              && |log| == n - at + 2 && log[0] == TtsStart(AudioStart(id, m.codec, m.sampleRateHz, m.channels))
              && (forall k :: 1 <= k <= n - at ==> log[k] == TtsChunk(script.items[at + k - 1].data))
              && log[n - at + 1] == TtsStop(AudioStop(id, n - at))
            else log == []
  {
    var at, n := Opening(format, script.items, 0), |script.items|;
    if at < Calls(format, script) {
      var m := MergeAll(format, script.items[..at + 1]);
      FramesInWords(script.items[at..]);
      assert script.items[at..n] == script.items[at..];
      StreamByPosition(TtsStart(StartOf(id, m)), Frames(script.items[at..]), TtsStop(AudioStop(id, n - at)));
    }
  }

  lemma StreamByPosition(start: Event, frames: seq<Event>, stop: Event)
    ensures var log := [start] + frames + [stop];
            && |log| == |frames| + 2 && log[0] == start && log[|frames| + 1] == stop
            && forall k :: 1 <= k <= |frames| ==> log[k] == frames[k - 1]
  {
  }

  /** A segment fails if the provider does, or gives up over a refusal, or brings nothing to send. */
  lemma ErrorInWords(format: AudioFormat, script: Script)
    requires script.Valid()
    ensures var at := Opening(format, script.items, 0);
            ErrorOf(format, script)
            == if !script.succeeds || !GoesOn(script, at) then Some(SynthesisFailed)
               else if at == |script.items| then Some(NoAudio) else None
  {
  }

  lemma {:induction false} FramesInWords(chunks: seq<AudioChunk>)
    ensures |Frames(chunks)| == |chunks|
    ensures forall k :: 0 <= k < |chunks| ==> Frames(chunks)[k] == TtsChunk(chunks[k].data)
  {
    if chunks != [] {
      FramesInWords(chunks[..|chunks| - 1]);
    }
  }

  /** The bytes of audio in a log. */
  function BytesIn(log: seq<Event>): nat {
    if log == [] then 0
    else
      var last := log[|log| - 1];
      BytesIn(log[..|log| - 1]) + if last.TtsChunk? then |last.data| else 0
  }

  lemma {:induction false} BytesInAppend(a: seq<Event>, b: seq<Event>)
    ensures BytesIn(a + b) == BytesIn(a) + BytesIn(b) && CountChunks(a + b) == CountChunks(a) + CountChunks(b)
  {
    if b == [] {
      assert a + b == a;
    } else {
      BytesInAppend(a, b[..|b| - 1]);
      assert (a + b)[..|a + b| - 1] == a + b[..|b| - 1];
    }
  }

  lemma {:induction false} BytesInFrames(chunks: seq<AudioChunk>)
    ensures BytesIn(Frames(chunks)) == Size(chunks) && CountChunks(Frames(chunks)) == |chunks|
  {
    if chunks != [] {
      var n := |chunks| - 1;
      BytesInFrames(chunks[..n]);
      BytesInAppend(Frames(chunks[..n]), [TtsChunk(chunks[n].data)]);
      OneFrameIn(chunks[n].data);
    }
  }

  lemma OneFrameIn(data: seq<byte>)
    ensures BytesIn([TtsChunk(data)]) == |data| && CountChunks([TtsChunk(data)]) == 1
  {
    assert [TtsChunk(data)][..0] == [];
  }

  lemma NoFrameIn(e: Event)
    requires !e.TtsChunk?
    ensures BytesIn([e]) == 0 && CountChunks([e]) == 0
  {
    assert [e][..0] == [];
  }

  /** The result of a segment counts the frames that it writes and their bytes. */
  lemma ResultCountsTheLog(id: string, result: Outcome, script: Script)
    requires script.Valid()
    ensures var after, log := Spoken(result, script), SegmentLog(id, result.format, script);
            && after.chunkCount == result.chunkCount + CountChunks(log)
            && after.audioBytes == result.audioBytes + BytesIn(log)
  {
    var at, n := Opening(result.format, script.items, 0), |script.items|;
    if at < Calls(result.format, script) {
      var start := TtsStart(StartOf(id, MergeAll(result.format, script.items[..at + 1])));
      var frames, stop := Frames(script.items[at..n]), TtsStop(AudioStop(id, n - at));
      BytesInFrames(script.items[at..n]);
      BytesInAppend([start] + frames, [stop]);
      BytesInAppend([start], frames);
      NoFrameIn(start);
      NoFrameIn(stop);
    }
  }

  /** A segment is skipped, without using up a name, exactly if it is blank. */
  lemma BlankIsNotSpoken(p: Point, job: Job, log: seq<Event>, q: Point)
    requires job.script.Valid() && Says(p, job, log, q)
    ensures if AllSpace(job.text) then log == [] && q == p else q.counter == p.counter + 1
  {
    TrimBlank(job.text);
  }

  // ---- The streams of a reply ----

  lemma {:induction false} FramesAreChunks(chunks: seq<AudioChunk>)
    ensures AllChunks(Frames(chunks)) && |Frames(chunks)| == |chunks|
  {
    if chunks != [] {
      FramesAreChunks(chunks[..|chunks| - 1]);
    }
  }

  /** A segment writes nothing or one whole stream. */
  ghost function SegmentPiece(log: seq<Event>): Piece {
    Piece(log, if log == [] then None else Some(0), true)
  }

  lemma SegmentShape(id: string, format: AudioFormat, script: Script) returns (start: AudioStart, frames: seq<Event>)
    requires script.Valid() && Opening(format, script.items, 0) < Calls(format, script)
    ensures start.streamId == id && AllChunks(frames)
    ensures SegmentLog(id, format, script) == [TtsStart(start)] + (frames + [TtsStop(AudioStop(id, |frames|))])
  {
    var at, n := Opening(format, script.items, 0), |script.items|;
    start, frames := StartOf(id, MergeAll(format, script.items[..at + 1])), Frames(script.items[at..n]);
    FramesAreChunks(script.items[at..n]);
  }

  lemma StreamFits(log: seq<Event>, start: AudioStart, frames: seq<Event>)
    requires AllChunks(frames)
    requires log == [TtsStart(start)] + (frames + [TtsStop(AudioStop(start.streamId, |frames|))])
    ensures SegmentPiece(log).Fits()
  {
    var stop := [TtsStop(AudioStop(start.streamId, |frames|))];
    StreamPiece([], start, frames, stop, true);
    assert [] + log == log;
  }

  lemma SegmentFits(id: string, format: AudioFormat, script: Script)
    requires script.Valid()
    ensures SegmentPiece(SegmentLog(id, format, script)).Fits()
  {
    if Opening(format, script.items, 0) < Calls(format, script) {
      var start, frames := SegmentShape(id, format, script);
      StreamFits(SegmentLog(id, format, script), start, frames);
    }
  }

  lemma {:induction false} SegmentPieces(logs: seq<seq<Event>>) returns (pieces: seq<Piece>)
    requires forall k :: 0 <= k < |logs| ==> SegmentPiece(logs[k]).Fits()
    ensures AllFit(pieces) && JoinLogs(pieces) == Flatten(logs) && forall p :: p in pieces ==> p.closed
  {
    pieces := [];
    if logs != [] {
      var n := |logs| - 1;
      var before := SegmentPieces(logs[..n]);
      pieces := before + [SegmentPiece(logs[n])];
      FitSnoc(before, SegmentPiece(logs[n]), pieces);
      JoinSnoc(before, SegmentPiece(logs[n]), pieces);
      FlattenSnoc(logs[..n], logs[n]);
      assert logs[..n] + [logs[n]] == logs;
    }
  }

  /**
   Whatever the providers do, and however far a reply comes: in what its segments write, starts and stops alternate,
   every start is followed by a stop with its id and its number of frames, and no stream is left open.
   */
  lemma SpokenSegmentsAreClosed(jobs: seq<Job>, points: seq<Point>, logs: seq<seq<Event>>)
    requires AllValid(jobs) && AllSaid(jobs, points, logs)
    ensures var log := Flatten(logs);
            && Alternates(log) && BracketOf(log).Outside?
            && forall i :: 0 <= i < |log| && log[i].TtsStart? ==> Closed(log, i)
  {
    forall k | 0 <= k < |logs| ensures SegmentPiece(logs[k]).Fits() {
      assert Says(points[k], jobs[k], logs[k], points[k + 1]);
      SegmentFits(Pipeline.IdText("tts", points[k + 1].counter), points[k].result.format, jobs[k].script);
    }
    var pieces := SegmentPieces(logs);
    ClosedPieces(pieces);
  }

  lemma ClosedPieces(pieces: seq<Piece>)
    requires AllFit(pieces) && forall p :: p in pieces ==> p.closed
    ensures var log := JoinLogs(pieces);
            && Alternates(log) && BracketOf(log).Outside?
            && forall i :: 0 <= i < |log| && log[i].TtsStart? ==> Closed(log, i)
  {
    PiecesAlternate(pieces);
    assert forall k :: 0 <= k < |pieces| ==> pieces[k] in pieces;
    var log := JoinLogs(pieces);
    forall i | 0 <= i < |log| && log[i].TtsStart? ensures Closed(log, i) {
      var k := StartBelongs(pieces, i);
      StreamOfPiece(pieces, k);
    }
  }

  // ---- The code ----

  /** What the callback keeps: segmentStarted, segmentChunks and the result; segmentFormat is the result's format. */
  datatype Segment = Segment(started: bool, chunks: nat, result: Outcome)

  /** What is kept after the first i chunks, on a connection that holds. */
  function SegmentAfter(result: Outcome, chunks: seq<AudioChunk>, at: nat, i: nat): Segment
    requires i <= |chunks|
  {
    Segment(at < i, if at < i then i - at else 0, Heard(result, chunks, at, i))
  }

  /** One chunk more, with which the format has become `merged`. */
  function Plus(s: Segment, chunk: AudioChunk, merged: AudioFormat): Segment {
    if s.started || CanAnnounce(merged) then
      Segment(true, s.chunks + 1,
              Outcome(s.result.chunkCount + 1, s.result.audioBytes + |chunk.data|, merged, s.result.err))
    else s.(result := s.result.(format := merged))
  }

  function ChunkLog(id: string, s: Segment, chunk: AudioChunk, merged: AudioFormat): seq<Event> {
    if s.started then [TtsChunk(chunk.data)]
    else if CanAnnounce(merged) then [TtsStart(StartOf(id, merged))] + [TtsChunk(chunk.data)]
    else []
  }

  lemma MergeSnoc(format: AudioFormat, chunks: seq<AudioChunk>, i: nat)
    requires i < |chunks|
    ensures MergeAll(format, chunks[..i + 1]) == Merge(MergeAll(format, chunks[..i]), chunks[i].format)
  {
    assert chunks[..i + 1][..i] == chunks[..i];
  }

  lemma SentSnoc(chunks: seq<AudioChunk>, at: nat, i: nat)
    requires at <= i < |chunks|
    ensures Size(chunks[at..i + 1]) == Size(chunks[at..i]) + |chunks[i].data|
    ensures Frames(chunks[at..i + 1]) == Frames(chunks[at..i]) + [TtsChunk(chunks[i].data)]
  {
    assert chunks[at..i + 1][..i - at] == chunks[at..i];
  }

  /** What one chunk more does to what is kept and written, in terms of the whole segment. */
  lemma OneMoreChunk(id: string, result: Outcome, chunks: seq<AudioChunk>, at: nat, i: nat, merged: AudioFormat)
    requires i < |chunks| && merged == MergeAll(result.format, chunks[..i + 1])
    requires i <= at ==> (CanAnnounce(merged) <==> i == at)
    ensures var s := SegmentAfter(result, chunks, at, i);
            && Plus(s, chunks[i], merged) == SegmentAfter(result, chunks, at, i + 1)
            && OpenLog(id, result.format, chunks, at, i) + ChunkLog(id, s, chunks[i], merged)
               == OpenLog(id, result.format, chunks, at, i + 1)
            && (s.started || CanAnnounce(merged) <==> at <= i)
  {
    if at <= i {
      SentSnoc(chunks, at, i);
      if at == i {
        assert chunks[at..i] == [];
      }
    }
  }

  /** A provider that stops at its i-th chunk: that one cannot be sent, or the connection has broken. */
  lemma StopsAt(script: Script, format: AudioFormat, id: string, i: nat, s0: seq<Event>, b0: bool, s1: seq<Event>, b1: bool)
    requires script.Valid() && i < |script.items| && !script.toleratesRefusals[i]
    requires var at := Opening(format, script.items, 0);
             && (forall k :: 0 <= k < i && k < at ==> script.toleratesRefusals[k])
             && (b1 || i < at)
             && Wrote(s0, b0, s1, b1, OpenLog(id, format, script.items, at, i + 1))
    ensures Wrote(s0, b0, s1, b1, SegmentLog(id, format, script))
    ensures !b1 ==> GivesUp(format, script) && Calls(format, script) == i + 1
  {
    var at := Opening(format, script.items, 0);
    if i < at {
      GivesUpEarly(script, format, id, at, i);
    } else {
      var more := LogGoesOn(script, format, id, at, i + 1);
      WroteFirst(s0, b0, s1, b1, OpenLog(id, format, script.items, at, i + 1), more, true);
    }
  }

  lemma GivesUpEarly(script: Script, format: AudioFormat, id: string, at: nat, i: nat)
    requires script.Valid() && at == Opening(format, script.items, 0) && i < at && !script.toleratesRefusals[i]
    requires forall k :: 0 <= k < i ==> script.toleratesRefusals[k]
    ensures GivesUp(format, script) && Calls(format, script) == i + 1
    ensures SegmentLog(id, format, script) == [] == OpenLog(id, format, script.items, at, i + 1)
  {
    assert Intolerant(script, 0, at) == i;
  }

  lemma LogGoesOn(script: Script, format: AudioFormat, id: string, at: nat, i: nat) returns (more: seq<Event>)
    requires script.Valid() && at == Opening(format, script.items, 0) && at < i <= |script.items|
    requires forall k :: 0 <= k < at ==> script.toleratesRefusals[k]
    ensures SegmentLog(id, format, script) == OpenLog(id, format, script.items, at, i) + more
  {
    assert Intolerant(script, 0, at) == at;
    var stop := [TtsStop(AudioStop(id, |script.items| - at))];
    OpenLogSplits(id, format, script.items, at, i);
    more := Frames(script.items[i..]) + stop;
  }

  lemma OpenLogSplits(id: string, format: AudioFormat, chunks: seq<AudioChunk>, at: nat, i: nat)
    requires at < i <= |chunks|
    ensures OpenLog(id, format, chunks, at, |chunks|) == OpenLog(id, format, chunks, at, i) + Frames(chunks[i..])
  {
    FramesAppend(chunks[at..i], chunks[i..]);
    assert chunks[at..|chunks|] == chunks[at..i] + chunks[i..];
  }

  lemma {:induction false} FramesAppend(a: seq<AudioChunk>, b: seq<AudioChunk>)
    ensures Frames(a + b) == Frames(a) + Frames(b)
  {
    if b == [] {
      assert a + b == a;
    } else {
      assert (a + b)[..|a + b| - 1] == a + b[..|b| - 1];
      FramesAppend(a, b[..|b| - 1]);
    }
  }

  class Speaker {
    const conn: Outbox
    var idCounter: nat

    constructor (conn: Outbox)
      ensures this.conn == conn && idCounter == 0
    {
      this.conn := conn;
      idCounter := 0;
    }

    /** The callback: one chunk of a segment. A start that is refused leaves the chunk unsent and uncounted. */
    method OnChunk(id: string, chunk: AudioChunk, s: Segment) returns (ok: bool, next: Segment)
      requires id != ""
      modifies conn
      ensures var merged := Merge(s.result.format, chunk.format);
              && Wrote(old(conn.sent), old(conn.broken), conn.sent, conn.broken, ChunkLog(id, s, chunk, merged))
              && (ok ==> !conn.broken)
              && (!conn.broken ==> ok == (s.started || CanAnnounce(merged)) && next == Plus(s, chunk, merged))
      ensures next.chunks <= s.chunks + 1 && next.result.err == s.result.err
    {
      ghost var s0, b0 := conn.sent, conn.broken;
      var merged := Merge(s.result.format, chunk.format);
      next := s.(result := s.result.(format := merged));
      if !s.started {
        var start := TtsStart(StartOf(id, merged));
        ok := conn.Write(start);
        PostedIsWrote(s0, b0, conn.sent, conn.broken, start, ok);
        if !ok {
          WroteFirst(s0, b0, conn.sent, conn.broken, Accepted(start), [TtsChunk(chunk.data)], CanAnnounce(merged));
          return;
        }
        next := next.(started := true);
      }
      ghost var s1, b1 := conn.sent, conn.broken;
      next := next.(chunks := next.chunks + 1,
                    result := next.result.(chunkCount := next.result.chunkCount + 1,
                                           audioBytes := next.result.audioBytes + |chunk.data|));
      ok := conn.Write(TtsChunk(chunk.data));
      PostedIsWrote(s1, b1, conn.sent, conn.broken, TtsChunk(chunk.data), ok);
      if !s.started {
        WroteBoth(s0, b0, s1, b1, conn.sent, conn.broken, [TtsStart(StartOf(id, merged))], [TtsChunk(chunk.data)], true);
      }
    }

    /** The call of SynthesizeStream with its callback. */
    method Synthesise(id: string, script: Script, result: Outcome) returns (ok: bool, s: Segment)
      requires script.Valid() && id != ""
      modifies conn
      ensures var at, calls := Opening(result.format, script.items, 0), Calls(result.format, script);
              && Wrote(old(conn.sent), old(conn.broken), conn.sent, conn.broken,
                       if conn.broken then SegmentLog(id, result.format, script)
                       else OpenLog(id, result.format, script.items, at, calls))
              && (!conn.broken ==>
                    && s == SegmentAfter(result, script.items, at, calls)
                    && ok == (script.succeeds && !GivesUp(result.format, script)))
      ensures s.result.err == result.err
    {
      ghost var at, s0, b0 := Opening(result.format, script.items, 0), conn.sent, conn.broken;
      var calls, stopped;
      s, calls, stopped := CallBack(id, script, result, at);
      if stopped {
        StopsAt(script, result.format, id, calls - 1, s0, b0, conn.sent, conn.broken);
      } else {
        EndsAt(script, result.format, id, s0, b0, conn.sent, conn.broken);
      }
      ok := script.succeeds && !stopped;
    }

    /** The callback with chunk i of a segment, in terms of the whole segment. */
    method OnNext(id: string, ghost result: Outcome, items: seq<AudioChunk>, ghost at: nat, i: nat, s: Segment,
                  ghost s0: seq<Event>, ghost b0: bool)
      returns (ok: bool, next: Segment)
      requires id != "" && i < |items| && at == Opening(result.format, items, 0)
      requires Wrote(s0, b0, conn.sent, conn.broken, OpenLog(id, result.format, items, at, i))
      requires !conn.broken ==> s == SegmentAfter(result, items, at, i)
      modifies conn
      ensures Wrote(s0, b0, conn.sent, conn.broken, OpenLog(id, result.format, items, at, i + 1))
      ensures !conn.broken ==> next == SegmentAfter(result, items, at, i + 1)
      ensures next.result.err == s.result.err && if ok then at <= i else conn.broken || i < at
    {
      ghost var s1, b1 := conn.sent, conn.broken;
      ok, next := OnChunk(id, items[i], s);
      OneMoreSent(id, result, items, at, i, s, next, s0, b0, s1, b1, conn.sent, conn.broken);
    }

    /** The callbacks; the provider stops when it does not tolerate that one is refused. */
    method CallBack(id: string, script: Script, result: Outcome, ghost at: nat)
      returns (s: Segment, calls: nat, stopped: bool)
      requires script.Valid() && id != "" && at == Opening(result.format, script.items, 0)
      modifies conn
      ensures calls <= |script.items| && s.result.err == result.err
      ensures Wrote(old(conn.sent), old(conn.broken), conn.sent, conn.broken,
                    OpenLog(id, result.format, script.items, at, calls))
      ensures !conn.broken ==> s == SegmentAfter(result, script.items, at, calls)
      ensures if stopped then
                && calls > 0 && !script.toleratesRefusals[calls - 1] && (conn.broken || calls - 1 < at)
                && forall k :: 0 <= k < calls - 1 && k < at ==> script.toleratesRefusals[k]
              else calls == |script.items| && forall k :: 0 <= k < calls && k < at ==> script.toleratesRefusals[k]
    {
      var items := script.items;
      ghost var s0, b0 := conn.sent, conn.broken;
      s, calls, stopped := Segment(false, 0, result), 0, false;
      assert items[..0] == [];
      WroteNothing(s0, b0);
      while calls < |items|
        invariant calls <= |items| && s.result.err == result.err
        invariant Wrote(s0, b0, conn.sent, conn.broken, OpenLog(id, result.format, items, at, calls))
        invariant !conn.broken ==> s == SegmentAfter(result, items, at, calls)
        invariant forall k :: 0 <= k < calls && k < at ==> script.toleratesRefusals[k]
      {
        var ok;
        ok, s := OnNext(id, result, items, at, calls, s, s0, b0);
        calls := calls + 1;
        if !ok && !script.toleratesRefusals[calls - 1] {
          stopped := true;
          return;
        }
      }
    }

    /** One segment: its stream is closed whether or not the synthesis succeeds. */
    method SpeakSegment(job: Job, result: Outcome) returns (next: Outcome)
      requires job.Speakable() && !job.cancelled && job.script.Valid() && result.err.None?
      modifies this`idCounter, conn
      ensures idCounter == old(idCounter) + 1
      ensures Wrote(old(conn.sent), old(conn.broken), conn.sent, conn.broken,
                    SegmentLog(Pipeline.IdText("tts", idCounter), result.format, job.script))
      ensures !conn.broken ==> next == Spoken(result, job.script)
    {
      ghost var s0, b0 := conn.sent, conn.broken;
      idCounter := idCounter + 1;
      var id := Pipeline.IdText("tts", idCounter);
      var ok, s := Synthesise(id, job.script, result);
      ghost var s1, b1 := conn.sent, conn.broken;
      next := s.result;
      if !ok {
        next := next.(err := Some(SynthesisFailed));
      } else if s.chunks == 0 {
        next := next.(err := Some(NoAudio));
      }
      var stop, written := TtsStop(AudioStop(id, s.chunks)), false;
      if s.started {
        written := conn.Write(stop);
      }
      SegmentEnds(id, job.script, result, s, s0, b0, s1, b1, conn.sent, conn.broken, stop, written);
      if !b1 {
        LogOfSegment(id, job.script, result, s);
      }
    }

    /** One turn of the loop; a segment that finds the context cancelled is not taken. */
    method Take(job: Job, result: Outcome) returns (next: Outcome, taken: bool, ghost log: seq<Event>)
      requires job.script.Valid() && result.err.None?
      modifies this`idCounter, conn
      ensures !taken ==>
                && job.Speakable() && job.cancelled && next == result.(err := Some(ContextCancelled))
                && conn.sent == old(conn.sent) && conn.broken == old(conn.broken) && idCounter == old(idCounter)
      ensures taken ==>
                && Wrote(old(conn.sent), old(conn.broken), conn.sent, conn.broken, log)
                && Says(Point(old(idCounter), result), job, log, Point(idCounter, if conn.broken then Expected(result, job) else next))
    {
      next, taken, log := result, true, [];
      if !job.Speakable() {
        WroteNothing(conn.sent, conn.broken);
        return;
      }
      if job.cancelled {
        next, taken := next.(err := Some(ContextCancelled)), false;
        return;
      }
      next := SpeakSegment(job, result);
      log := SegmentLog(Pipeline.IdText("tts", idCounter), result.format, job.script);
    }

    /**
     The whole loop, on a connection with any past. What is written is exactly the closed streams of the segments up
     to and including the first one that fails, or as much of it as goes through before the connection breaks; on a
     connection that holds the result counts exactly the audio sent.
     */
    method RunRealtimeTTS(jobs: seq<Job>, format: AudioFormat)
      returns (result: Outcome, ghost done: nat, ghost points: seq<Point>, ghost logs: seq<seq<Event>>)
      requires AllValid(jobs)
      modifies this`idCounter, conn
      ensures |logs| <= done <= |jobs| && AllSaid(jobs[..|logs|], points, logs)
      ensures points[0] == Point(old(idCounter), Outcome(0, 0, format, None))
      ensures Wrote(old(conn.sent), old(conn.broken), conn.sent, conn.broken, Flatten(logs))
      ensures !conn.broken ==>
                && |logs| == done
                && points[done] == Point(idCounter, result.(err := points[done].result.err))
                && StopsAtFirstFailure(jobs, points, done, result.err)
    {
      result, done := Outcome(0, 0, format, None), 0;
      points, logs := [Point(idCounter, result)], [];
      ghost var s0, b0 := conn.sent, conn.broken;
      WroteNothing(s0, b0);
      for i := 0 to |jobs|
        invariant done == i && result.err.None?
        invariant |logs| <= i && AllSaid(jobs[..|logs|], points, logs)
        invariant points[0] == Point(old(idCounter), Outcome(0, 0, format, None))
        invariant Wrote(s0, b0, conn.sent, conn.broken, Flatten(logs))
        invariant !conn.broken ==>
            |logs| == i && points[i] == Point(idCounter, result) && forall k :: 0 <= k <= i ==> points[k].result.err.None?
      {
        ghost var s1, b1, before := conn.sent, conn.broken, result;
        var taken;
        ghost var log;
        result, taken, log := Take(jobs[i], result);
        if !taken {
          return;
        }
        OneMoreWritten(s0, b0, s1, b1, conn.sent, conn.broken, logs, log);
        if !b1 {
          ghost var q := Point(idCounter, if conn.broken then Expected(before, jobs[i]) else result);
          OneMoreSaid(jobs, i, points, logs, log, q);
          points, logs := points + [q], logs + [log];
        }
        done := i + 1;
        if result.err.Some? {
          return;
        }
      }
    }
  }

  /** What a job makes of the result on a connection that holds. */
  function Expected(result: Outcome, job: Job): Outcome
    requires |job.script.toleratesRefusals| == |job.script.items|
  {
    if job.Speakable() then Spoken(result, job.script) else result
  }

  lemma OneMoreWritten(s0: seq<Event>, b0: bool, s1: seq<Event>, b1: bool, s2: seq<Event>, b2: bool,
                       logs: seq<seq<Event>>, log: seq<Event>)
    requires Wrote(s0, b0, s1, b1, Flatten(logs)) && Wrote(s1, b1, s2, b2, log)
    ensures Wrote(s0, b0, s2, b2, Flatten(logs + [log]))
    ensures b1 ==> Wrote(s0, b0, s2, b2, Flatten(logs))
  {
    FlattenSnoc(logs, log);
    WroteBoth(s0, b0, s1, b1, s2, b2, Flatten(logs), log, true);
  }

  lemma OneMoreSent(id: string, result: Outcome, chunks: seq<AudioChunk>, at: nat, i: nat, s: Segment, next: Segment,
                    s0: seq<Event>, b0: bool, s1: seq<Event>, b1: bool, s2: seq<Event>, b2: bool)
    requires i < |chunks| && at == Opening(result.format, chunks, 0)
    requires Wrote(s0, b0, s1, b1, OpenLog(id, result.format, chunks, at, i)) && (!b1 ==> s == SegmentAfter(result, chunks, at, i))
    requires var merged := Merge(s.result.format, chunks[i].format);
             Wrote(s1, b1, s2, b2, ChunkLog(id, s, chunks[i], merged)) && (!b2 ==> next == Plus(s, chunks[i], merged))
    ensures Wrote(s0, b0, s2, b2, OpenLog(id, result.format, chunks, at, i + 1))
    ensures !b2 ==> next == SegmentAfter(result, chunks, at, i + 1)
    ensures !b2 ==> (s.started || CanAnnounce(Merge(s.result.format, chunks[i].format)) <==> at <= i)
  {
    var kept, merged := SegmentAfter(result, chunks, at, i), MergeAll(result.format, chunks[..i + 1]);
    MergeSnoc(result.format, chunks, i);
    assert Announces(result.format, chunks, i) == CanAnnounce(merged);
    OneMoreChunk(id, result, chunks, at, i, merged);
    var log := ChunkLog(id, kept, chunks[i], merged);
    WroteSame(s1, b1, s2, b2, ChunkLog(id, s, chunks[i], Merge(s.result.format, chunks[i].format)), log);
    WroteBoth(s0, b0, s1, b1, s2, b2, OpenLog(id, result.format, chunks, at, i), log, true);
  }

  /** A provider that comes to the end of its chunks. */
  lemma EndsAt(script: Script, format: AudioFormat, id: string, s0: seq<Event>, b0: bool, s1: seq<Event>, b1: bool)
    requires script.Valid()
    requires var at := Opening(format, script.items, 0);
             && (forall k :: 0 <= k < |script.items| && k < at ==> script.toleratesRefusals[k])
             && Wrote(s0, b0, s1, b1, OpenLog(id, format, script.items, at, |script.items|))
    ensures !GivesUp(format, script) && Calls(format, script) == |script.items|
    ensures b1 ==> Wrote(s0, b0, s1, b1, SegmentLog(id, format, script))
  {
    var at, n := Opening(format, script.items, 0), |script.items|;
    if b1 {
      WroteFirst(s0, b0, s1, b1, OpenLog(id, format, script.items, at, n), [TtsStop(AudioStop(id, n - at))], at < n);
    }
  }

  /** The log of a segment is its open log, and the stop of its stream if it has one. */
  lemma LogOfSegment(id: string, script: Script, result: Outcome, s: Segment)
    requires script.Valid()
    requires s == SegmentAfter(result, script.items, Opening(result.format, script.items, 0), Calls(result.format, script))
    ensures var at, calls := Opening(result.format, script.items, 0), Calls(result.format, script);
            SegmentLog(id, result.format, script)
            == OpenLog(id, result.format, script.items, at, calls)
               + if s.started then [TtsStop(AudioStop(id, s.chunks))] else []
    ensures Spoken(result, script) == s.result.(err := ErrorOf(result.format, script))
    ensures s.started <==> s.chunks > 0
  {
  }

  /** The end of a segment, with the stop that is written if the stream was started. */
  lemma SegmentEnds(id: string, script: Script, result: Outcome, s: Segment, s0: seq<Event>, b0: bool,
                    s1: seq<Event>, b1: bool, s2: seq<Event>, b2: bool, stop: Event, ok: bool)
    requires script.Valid() && id != "" && stop == TtsStop(AudioStop(id, s.chunks))
    requires var at, calls := Opening(result.format, script.items, 0), Calls(result.format, script);
             && Wrote(s0, b0, s1, b1, if b1 then SegmentLog(id, result.format, script)
                                      else OpenLog(id, result.format, script.items, at, calls))
             && (!b1 ==> s == SegmentAfter(result, script.items, at, calls))
    requires if s.started then Posted(s1, b1, s2, b2, stop, ok) else s2 == s1 && b2 == b1
    ensures Wrote(s0, b0, s2, b2, SegmentLog(id, result.format, script))
  {
    if s.started {
      PostedIsWrote(s1, b1, s2, b2, stop, ok);
    }
    if !b1 {
      LogOfSegment(id, script, result, s);
      var log := OpenLog(id, result.format, script.items, Opening(result.format, script.items, 0),
                         Calls(result.format, script));
      if s.started {
        WroteBoth(s0, b0, s1, b1, s2, b2, log, [stop], true);
      } else {
        WroteFirst(s0, b0, s1, b1, log, [stop], false);
      }
    }
  }

  /** Which segment stopped the loop, and with what error. */
  ghost predicate StopsAtFirstFailure(jobs: seq<Job>, points: seq<Point>, done: nat, err: Option<Failure>)
    requires done <= |jobs| && |points| == done + 1
  {
    match err
    case None => done == |jobs| && forall k :: 0 <= k <= done ==> points[k].result.err.None?
    case Some(ContextCancelled) =>
      && (forall k :: 0 <= k <= done ==> points[k].result.err.None?)
      && done < |jobs| && jobs[done].Speakable() && jobs[done].cancelled
    case Some(failure) =>
      && done > 0 && points[done].result.err == err
      && forall k :: 0 <= k < done ==> points[k].result.err.None?
  }
}
