/**
 The streaming WAVE parser, which hands out audio in pieces as it reads, and its agreement with the parser of a
 whole buffer. internal/provider/openai_compatible.go:664-794. The callback takes so many pieces and fails at the next.
 */
module WavStream {
  import opened Common
  import opened Bytes
  import opened AudioFormats
  import opened Wav

  /** EndedEarly stands for io.EOF and io.ErrUnexpectedEOF alike. */
  datatype StreamError = NoError | EndedEarly | Unsupported | CallbackFailed

  datatype Streamed = Streamed(chunks: seq<AudioChunk>, err: StreamError)

  /** A run of bytes cut into pieces of 1024, the last of them shorter. */
  function Pieces(data: seq<byte>, format: AudioFormat): seq<AudioChunk> {
    if data == [] then []
    else if |data| <= PIECE then [AudioChunk(data, format)]
    else [AudioChunk(data[..PIECE], format)] + Pieces(data[PIECE..], format)
  }

  function Audio(chunks: seq<AudioChunk>): seq<byte> {
    if chunks == [] then [] else chunks[0].data + Audio(chunks[1..])
  }

  ghost predicate WellCut(chunks: seq<AudioChunk>, format: AudioFormat) {
    forall i :: 0 <= i < |chunks| ==> 0 < |chunks[i].data| <= PIECE && chunks[i].format == format
  }

  lemma {:induction false} PiecesAreTheData(data: seq<byte>, format: AudioFormat)
    ensures Audio(Pieces(data, format)) == data && WellCut(Pieces(data, format), format)
  {
    if data == [] {
    } else if |data| <= PIECE {
      SingleAudio(data, format);
    } else {
      PiecesAreTheData(data[PIECE..], format);
      assert Pieces(data, format)[1..] == Pieces(data[PIECE..], format);
    }
  }

  /** Every piece but the last holds 1024 bytes, and the last no more. */
  lemma {:induction false} PiecesAreFull(data: seq<byte>, format: AudioFormat)
    ensures var pieces := Pieces(data, format);
            && |pieces| == (|data| + 1023) / 1024
            && forall k :: 0 <= k < |pieces| ==>
                 pieces[k] == AudioChunk(data[1024 * k..if k < |pieces| - 1 then 1024 * (k + 1) else |data|], format)
  {
    if |data| > PIECE {
      var rest := data[PIECE..];
      PiecesAreFull(rest, format);
      var pieces := Pieces(data, format);
      assert |rest| + 1023 == |data| - 1;
      forall k | 0 < k < |pieces|
        ensures pieces[k] == AudioChunk(data[1024 * k..if k < |pieces| - 1 then 1024 * (k + 1) else |data|], format)
      {
        var to := if k < |pieces| - 1 then 1024 * k else |rest|;
        assert rest[1024 * (k - 1)..to] == data[1024 * k..to + 1024];
      }
    }
  }

  lemma SingleAudio(data: seq<byte>, format: AudioFormat)
    ensures Audio([AudioChunk(data, format)]) == data
  {
    assert Audio([AudioChunk(data, format)][1..]) == [];
  }

  lemma {:induction false} AudioAppend(a: seq<AudioChunk>, b: seq<AudioChunk>)
    ensures Audio(a + b) == Audio(a) + Audio(b)
  {
    if a == [] {
      assert a + b == b;
    } else {
      assert (a + b)[1..] == a[1..] + b;
      AudioAppend(a[1..], b);
    }
  }

  // ---- The stream as a function of the chunks ----

  /** What the body of one chunk yields: pieces, the format after it, and an error if it is short or unsupported. */
  datatype Yield = Yield(pieces: seq<AudioChunk>, format: AudioFormat, err: StreamError)

  function StreamBody(c: Chunk, format: AudioFormat): Yield {
    match c.kind
    case FmtChunk =>
      if !c.Complete() then Yield([], format, EndedEarly)
      else if c.size < 16 then Yield([], format, NoError)
      else if FormatIn(c.body).None? then Yield([], format, Unsupported)
      else Yield([], FormatIn(c.body).value, NoError)
    case DataChunk => Yield(Pieces(c.body, format), format, if c.Complete() then NoError else EndedEarly)
    case OtherChunk => Yield([], format, if c.Complete() then NoError else EndedEarly)
  }

  /** The stream of some chunks followed by the end of the file. */
  function Stream(chunks: seq<Chunk>, format: AudioFormat, dataSeen: bool): Streamed {
    if chunks == [] then Streamed([], if dataSeen then NoError else EndedEarly)
    else
      var c := chunks[0];
      var y := StreamBody(c, format);
      if y.err != NoError then Streamed(y.pieces, y.err)
      else if !c.padded then Streamed(y.pieces, EndedEarly)
      else
        var rest := Stream(chunks[1..], y.format, dataSeen || c.kind.DataChunk?);
        Streamed(y.pieces + rest.chunks, rest.err)
  }

  /** The same stream for a callback that takes so many pieces: it is broken off with the one that is refused. */
  function Heeding(s: Streamed, takes: nat): Streamed {
    if |s.chunks| <= takes then s else Streamed(s.chunks[..takes + 1], CallbackFailed)
  }

  function HeedingYield(y: Yield, takes: nat): Yield {
    if |y.pieces| <= takes then y else Yield(y.pieces[..takes + 1], y.format, CallbackFailed)
  }

  /** A chunk that the stream gets past: all there, padded, and no format but 16-bit PCM. */
  ghost predicate Passable(c: Chunk) {
    && |c.body| == c.size && c.padded
    && (c.kind.FmtChunk? && c.size >= 16 ==> FormatIn(c.body).Some?)
  }

  ghost predicate HasData(chunks: seq<Chunk>) {
    exists k :: 0 <= k < |chunks| && chunks[k].kind.DataChunk?
  }

  /** The bodies of the data chunks, one after the other. */
  function DataOf(chunks: seq<Chunk>): seq<byte> {
    if chunks == [] then []
    else (if chunks[0].kind.DataChunk? then chunks[0].body else []) + DataOf(chunks[1..])
  }

  /** The stream ends without an error if and only if it gets past every chunk and there is a data chunk. */
  lemma {:induction false} StreamSucceedsIff(chunks: seq<Chunk>, format: AudioFormat, dataSeen: bool)
    ensures Stream(chunks, format, dataSeen).err == NoError
       <==> (forall k :: 0 <= k < |chunks| ==> Passable(chunks[k])) && (dataSeen || HasData(chunks))
  {
    if chunks != [] {
      var c, rest := chunks[0], chunks[1..];
      var y := StreamBody(c, format);
      StreamSucceedsIff(rest, y.format, dataSeen || c.kind.DataChunk?);
      assert forall k :: 0 <= k < |rest| ==> rest[k] == chunks[k + 1];
      if HasData(rest) {
        var k :| 0 <= k < |rest| && rest[k].kind.DataChunk?;
        assert chunks[k + 1].kind.DataChunk?;
      }
      if forall k :: 0 <= k < |rest| ==> Passable(rest[k]) {
        forall k | 0 < k < |chunks| ensures Passable(chunks[k]) {
          assert chunks[k] == rest[k - 1];
        }
      }
    }
  }

  /** And then it has handed out the audio of all the data chunks. */
  lemma {:induction false} StreamHandsOutTheData(chunks: seq<Chunk>, format: AudioFormat, dataSeen: bool)
    requires Stream(chunks, format, dataSeen).err == NoError
    ensures Audio(Stream(chunks, format, dataSeen).chunks) == DataOf(chunks)
  {
    if chunks != [] {
      var c := chunks[0];
      var y := StreamBody(c, format);
      StreamHandsOutTheData(chunks[1..], y.format, dataSeen || c.kind.DataChunk?);
      AudioAppend(y.pieces, Stream(chunks[1..], y.format, dataSeen || c.kind.DataChunk?).chunks);
      PiecesAreTheData(c.body, format);
    }
  }

  // ---- Agreement with the buffer parser ----

  /** The kinds of the fmt and data chunks, in order. */
  ghost function EssentialKinds(chunks: seq<Chunk>): seq<ChunkKind> {
    if chunks == [] then []
    else (if chunks[0].kind.OtherChunk? then [] else [chunks[0].kind]) + EssentialKinds(chunks[1..])
  }

  /** No odd chunk lacks its padding byte; only the last one can. */
  ghost predicate Padded(chunks: seq<Chunk>) {
    forall i :: 0 <= i < |chunks| ==> chunks[i].padded
  }

  /** Only the last chunk may lack its padding. */
  ghost predicate PaddedInside(chunks: seq<Chunk>) {
    forall i :: 0 <= i < |chunks| - 1 ==> chunks[i].padded
  }

  lemma {:induction false} ChunksArePaddedInside(wav: seq<byte>, offset: nat)
    ensures PaddedInside(ChunksFrom(wav, offset))
    decreases |wav| - offset
  {
    if offset + 8 <= |wav| {
      ChunksStep(wav, offset);
      var c := ChunkAt(wav, offset);
      ChunksArePaddedInside(wav, NextOffset(offset, c.size));
    }
  }

  lemma KindsStep(chunks: seq<Chunk>)
    requires chunks != []
    ensures var kinds, rest := EssentialKinds(chunks), EssentialKinds(chunks[1..]);
            if chunks[0].kind.OtherChunk? then kinds == rest
            else kinds != [] && kinds[0] == chunks[0].kind && kinds[1..] == rest
  {
  }

  /**
   What the buffer parser found by walking the chunks, given what it had before, and what the stream yields of the
   same chunks: the audio still to come under the final format.
   */
  lemma {:induction false} StreamMatchesWalk(chunks: seq<Chunk>, found: Found, format: AudioFormat, dataSeen: bool,
                                             result: Found)
    requires PaddedInside(chunks) && Walk(chunks, found) == Ok(result)
    requires EssentialKinds(chunks)
          == if dataSeen then [] else if found.format.Some? then [DataChunk] else [FmtChunk, DataChunk]
    requires found.format.Some? ==> found.format.value == format
    requires dataSeen ==> found.format.Some?
    requires !dataSeen ==> found.pcm == []
    ensures result.format.Some?
    ensures dataSeen ==> result == found
    ensures found.format.Some? ==> result.format == found.format
    ensures var s := Stream(chunks, format, dataSeen);
            && s.chunks == (if dataSeen then [] else Pieces(result.pcm, result.format.value))
            && (s.err == NoError <==> Padded(chunks))
    decreases |chunks|
  {
    if chunks != [] {
      var c, rest := chunks[0], chunks[1..];
      KindsStep(chunks);
      var next := Visit(c, found).value;
      var y := StreamBody(c, format);
      assert y.err == NoError;
      PaddingOfRest(chunks);
      if !c.padded {
        assert rest == [];
        assert dataSeen || c.kind.DataChunk?;
      }
      StreamMatchesWalk(rest, next, y.format, dataSeen || c.kind.DataChunk?, result);
    }
  }

  lemma PaddingOfRest(chunks: seq<Chunk>)
    requires chunks != [] && PaddedInside(chunks)
    ensures PaddedInside(chunks[1..])
    ensures Padded(chunks) <==> chunks[0].padded && Padded(chunks[1..])
    ensures !chunks[0].padded ==> chunks[1..] == []
  {
    var rest := chunks[1..];
    assert forall i :: 0 <= i < |rest| ==> rest[i] == chunks[i + 1];
    if chunks[0].padded && Padded(rest) {
      forall i | 0 <= i < |chunks| ensures chunks[i].padded {
        if i > 0 {
          assert rest[i - 1].padded;
        }
      }
    }
  }

  /**
   On every file that the buffer parser accepts, with one fmt chunk before one data chunk, the stream hands out
   the same audio in pieces of at most 1024 bytes under the same format; and it ends without an error exactly when
   no odd chunk at the end lacks its padding byte.
   */
  lemma StreamAgreesWithBuffer(wav: seq<byte>, requested: AudioFormat)
    requires Parsed(wav).Ok? && EssentialKinds(ChunksFrom(wav, 12)) == [FmtChunk, DataChunk]
    ensures var (pcm, format) := Parsed(wav).value;
            var s := Stream(ChunksFrom(wav, 12), requested, false);
            && Audio(s.chunks) == pcm && WellCut(s.chunks, format)
            && (s.err == NoError <==> Padded(ChunksFrom(wav, 12)))
  {
    var (pcm, format) := Parsed(wav).value;
    var chunks := ChunksFrom(wav, 12);
    ChunksArePaddedInside(wav, 12);
    StreamMatchesWalk(chunks, NOTHING, requested, false, Walk(chunks, NOTHING).value);
    PiecesAreTheData(pcm, format);
  }

  // ---- The readers ----

  datatype Stats = Stats(chunkCount: nat, audioBytes: nat, wavUnwrapped: bool)

  lemma PiecesStep(left: seq<byte>, n: nat, format: AudioFormat)
    requires 0 < n <= |left| && n <= PIECE && (n < PIECE ==> n == |left|)
    ensures Pieces(left, format) == [AudioChunk(left[..n], format)] + Pieces(left[n..], format)
  {
    if |left| == n {
      assert left[..n] == left && left[n..] == [];
    }
  }

  /** streamWAVData: left is what the reader will give of the size bytes asked for. */
  method StreamWavData(reader: Reader, size: nat, format: AudioFormat, takes: nat)
    returns (chunks: seq<AudioChunk>, audioBytes: nat, err: StreamError)
    requires reader.Valid()
    modifies reader
    ensures reader.Valid() && audioBytes == |Audio(chunks)|
    ensures var end := Min(old(reader.pos) + size, |reader.data|);
            && (err != CallbackFailed ==> reader.pos == end)
            && Streamed(chunks, err)
               == Heeding(Streamed(Pieces(reader.data[old(reader.pos)..end], format),
                                   if old(reader.pos) + size <= |reader.data| then NoError else EndedEarly), takes)
  {
    chunks, audioBytes, err := [], 0, NoError;
    var remaining := size;
    ghost var data, enough := reader.data, reader.pos + size <= |reader.data|;
    ghost var end := Min(reader.pos + size, |data|);
    ghost var left := data[reader.pos..end];
    ghost var whole := Pieces(left, format);
    while remaining > 0
      invariant reader.Valid() && reader.pos + |left| == end <= |data| && left == data[reader.pos..end]
      invariant if enough then remaining == |left| else remaining > |left|
      invariant audioBytes == |Audio(chunks)| && err == NoError && |chunks| <= takes
      invariant chunks + Pieces(left, format) == whole
      decreases remaining
    {
      var toRead := if remaining < PIECE then remaining else PIECE;
      ghost var at := reader.pos;
      var read, outcome := reader.ReadFull(toRead);
      SliceSplits(data, at, end, |read|);
      assert read == left[..|read|];
      if |read| > 0 {
        PieceHandedOut(chunks, left, |read|, format, whole);
        chunks := chunks + [AudioChunk(read, format)];
        audioBytes := audioBytes + |read|;
        if |chunks| > takes {
          BrokenOff(chunks, Pieces(left[|read|..], format));
          err := CallbackFailed;
          return;
        }
        remaining := remaining - |read|;
      }
      left := left[|read|..];
      if outcome != Full {
        assert chunks + Pieces(left, format) == chunks;
        err := EndedEarly;
        return;
      }
    }
  }

  lemma BrokenOff(a: seq<AudioChunk>, b: seq<AudioChunk>)
    ensures (a + b)[..|a|] == a
  {
  }

  lemma PieceHandedOut(chunks: seq<AudioChunk>, left: seq<byte>, n: nat, format: AudioFormat, whole: seq<AudioChunk>)
    requires 0 < n <= |left| && n <= PIECE && (n < PIECE ==> n == |left|)
    requires chunks + Pieces(left, format) == whole
    ensures var piece := [AudioChunk(left[..n], format)];
            && chunks + piece + Pieces(left[n..], format) == whole
            && Audio(chunks + piece) == Audio(chunks) + left[..n]
  {
    PiecesStep(left, n, format);
    AudioAppend(chunks, [AudioChunk(left[..n], format)]);
    SingleAudio(left[..n], format);
  }

  /** The body of the loop of streamWAVAsPCM, after the chunk header and before the padding. */
  method StreamChunk(reader: Reader, chunkID: Tag, chunkSize: nat, requested: AudioFormat, takes: nat, ghost c: Chunk)
    returns (pieces: seq<AudioChunk>, audioBytes: nat, format: AudioFormat, err: StreamError)
    requires reader.Valid() && c.kind == KindOf(chunkID) && c.size == chunkSize
    requires c.body == reader.data[reader.pos..Min(reader.pos + chunkSize, |reader.data|)]
    modifies reader
    ensures reader.Valid() && audioBytes == |Audio(pieces)|
    ensures Yield(pieces, format, err) == HeedingYield(StreamBody(c, requested), takes)
    ensures err == NoError ==> c.Complete() && reader.pos == old(reader.pos) + chunkSize
  {
    pieces, audioBytes, format, err := [], 0, requested, NoError;
    if chunkID == FMT {
      var payload, got := reader.ReadFull(chunkSize);
      if got != Full {
        err := EndedEarly;
        return;
      }
      if |payload| >= 16 {
        var audioFormat := U16LE(payload, 0);
        var channels := U16LE(payload, 2);
        var sampleRate := U32LE(payload, 4);
        var bitsPerSample := U16LE(payload, 14);
        if audioFormat != 1 || bitsPerSample != 16 {
          err := Unsupported;
          return;
        }
        format := AudioFormat(PCM_S16LE, sampleRate, channels);
      }
    } else if chunkID == DATA {
      pieces, audioBytes, err := StreamWavData(reader, chunkSize, format, takes);
    } else {
      var ok := reader.Discard(chunkSize);
      if !ok {
        err := EndedEarly;
      }
    }
  }

  /** How one turn of the loop of streamWAVAsPCM relates the stream before it to the stream after it. */
  ghost predicate Advances(whole: Streamed, pieces: seq<AudioChunk>, finished: bool, err: StreamError, rest: Streamed,
                           takes: int) {
    && 0 <= takes
    && if finished then Heeding(whole, takes) == Streamed(pieces, err)
       else |pieces| <= takes && whole == Streamed(pieces + rest.chunks, rest.err)
  }

  lemma AdvanceWhole(whole: Streamed, before: seq<AudioChunk>, rest: Streamed, pieces: seq<AudioChunk>, finished: bool,
                     err: StreamError, after: Streamed, takes: nat)
    requires whole == Streamed(before + rest.chunks, rest.err)
    requires Advances(rest, pieces, finished, err, after, takes - |before|)
    ensures Advances(whole, before + pieces, finished, err, after, takes)
  {
    if !finished {
      assert before + (pieces + after.chunks) == before + pieces + after.chunks;
    } else if |rest.chunks| > takes - |before| {
      assert whole.chunks[..takes + 1] == before + rest.chunks[..takes - |before| + 1];
    }
  }

  /** A chunk whose audio is refused ends the stream there. */
  lemma RefusedChunk(y: Yield, rest: seq<AudioChunk>, err: StreamError, takes: nat)
    requires |y.pieces| > takes
    ensures Heeding(Streamed(y.pieces + rest, err), takes) == Streamed(y.pieces[..takes + 1], CallbackFailed)
  {
    assert (y.pieces + rest)[..takes + 1] == y.pieces[..takes + 1];
  }

  lemma HeaderFields(data: seq<byte>, offset: nat, header: seq<byte>)
    requires offset + 8 <= |data| && header == data[offset..offset + 8]
    ensures TagAt(header, 0) == TagAt(data, offset) && U32LE(header, 4) == U32LE(data, offset + 4)
  {
    assert header[0] == data[offset] && header[1] == data[offset + 1];
    assert header[2] == data[offset + 2] && header[3] == data[offset + 3];
    assert header[4] == data[offset + 4] && header[5] == data[offset + 5];
    assert header[6] == data[offset + 6] && header[7] == data[offset + 7];
  }

  /** One turn of that loop: a chunk header, the chunk and its padding. */
  method NextChunk(reader: Reader, requested: AudioFormat, seen: bool, takes: nat)
    returns (pieces: seq<AudioChunk>, audioBytes: nat, format: AudioFormat, dataSeen: bool,
             finished: bool, err: StreamError)
    requires reader.Valid() && reader.pos % 2 == 0
    modifies reader
    ensures reader.Valid() && audioBytes == |Audio(pieces)|
    ensures !finished ==> reader.pos % 2 == 0 && reader.pos > old(reader.pos)
    ensures Advances(Stream(ChunksFrom(reader.data, old(reader.pos)), requested, seen), pieces, finished, err,
                     Stream(ChunksFrom(reader.data, reader.pos), format, dataSeen), takes)
  {
    pieces, audioBytes, format, dataSeen, finished := [], 0, requested, seen, true;
    ghost var data, offset := reader.data, reader.pos;
    var header, outcome := reader.ReadFull(8);
    if outcome != Full {
      err := if dataSeen then NoError else EndedEarly;
      return;
    }
    var chunkID := TagAt(header, 0);
    var chunkSize := U32LE(header, 4);
    HeaderFields(data, offset, header);
    ChunksStep(data, offset);
    ghost var c := ChunkAt(data, offset);
    ghost var y := StreamBody(c, requested);
    ghost var whole := Stream(ChunksFrom(data, offset), requested, seen);
    StreamBegins(ChunksFrom(data, offset), requested, seen);
    pieces, audioBytes, format, err := StreamChunk(reader, chunkID, chunkSize, requested, takes, c);
    dataSeen := dataSeen || chunkID == DATA;
    if err != NoError {
      if |y.pieces| > takes {
        RefusedChunk(y, whole.chunks[|y.pieces|..], whole.err, takes);
      }
      return;
    }
    if chunkSize % 2 != 0 {
      var ok := reader.Discard(1);
      if !ok {
        err := EndedEarly;
        return;
      }
    }
    assert reader.pos == NextOffset(offset, c.size);
    finished := false;
  }

  /** A stream begins with what its first chunk yields. */
  lemma StreamBegins(chunks: seq<Chunk>, format: AudioFormat, seen: bool)
    requires chunks != []
    ensures var whole, y := Stream(chunks, format, seen), StreamBody(chunks[0], format);
            y.pieces <= whole.chunks && whole == Streamed(y.pieces + whole.chunks[|y.pieces|..], whole.err)
  {
  }

  /** streamWAVAsPCM: the RIFF header has been consumed and the reader stands at the first chunk. */
  method StreamWavAsPcm(reader: Reader, requested: AudioFormat, takes: nat)
    returns (chunks: seq<AudioChunk>, stats: Stats, err: StreamError)
    requires reader.Valid() && reader.pos % 2 == 0
    modifies reader
    ensures reader.Valid()
    ensures Streamed(chunks, err) == Heeding(Stream(ChunksFrom(reader.data, old(reader.pos)), requested, false), takes)
    ensures stats == Stats(|chunks|, |Audio(chunks)|, true)
  {
    var format := requested;
    var dataSeen := false;
    chunks := [];
    stats := Stats(0, 0, true);
    ghost var whole := Stream(ChunksFrom(reader.data, reader.pos), requested, false);
    ghost var rest := whole;
    assert [] + rest.chunks == rest.chunks;
    while true
      invariant reader.Valid() && reader.pos % 2 == 0
      invariant stats == Stats(|chunks|, |Audio(chunks)|, true) && |chunks| <= takes
      invariant rest == Stream(ChunksFrom(reader.data, reader.pos), format, dataSeen)
      invariant whole == Streamed(chunks + rest.chunks, rest.err)
      decreases |reader.data| - reader.pos
    {
      var pieces, audioBytes, finished;
      pieces, audioBytes, format, dataSeen, finished, err := NextChunk(reader, format, dataSeen, takes - |chunks|);
      AudioAppend(chunks, pieces);
      ghost var after := Stream(ChunksFrom(reader.data, reader.pos), format, dataSeen);
      AdvanceWhole(whole, chunks, rest, pieces, finished, err, after, takes);
      chunks := chunks + pieces;
      stats := Stats(stats.chunkCount + |pieces|, stats.audioBytes + audioBytes, true);
      if finished {
        return;
      }
      rest := after;
    }
  }

  /** All of the data has been handed out, or what came before the piece that was refused, and that piece. */
  ghost predicate HandedOut(chunks: seq<AudioChunk>, err: StreamError, data: seq<byte>, format: AudioFormat, takes: nat) {
    && WellCut(chunks, format)
    && if err == NoError then |chunks| <= takes && Audio(chunks) == data
       else err == CallbackFailed && |chunks| == takes + 1 && Audio(chunks) <= data
  }

  lemma RawPiece(chunks: seq<AudioChunk>, data: seq<byte>, start: nat, at: nat, n: nat, format: AudioFormat)
    requires start <= at && at + n <= |data| && 0 < n <= PIECE
    requires Audio(chunks) == data[start..at] && WellCut(chunks, format)
    ensures var more := chunks + [AudioChunk(data[at..at + n], format)];
            Audio(more) == data[start..at + n] && WellCut(more, format) && Audio(more) <= data[start..]
  {
    AudioAppend(chunks, [AudioChunk(data[at..at + n], format)]);
    SingleAudio(data[at..at + n], format);
    var all := data[start..at + n];
    assert all[..at - start] == data[start..at] && all[at - start..] == data[at..at + n];
    assert all == all[..at - start] + all[at - start..];
  }

  /** streamRawTTSAudio: each Read returns some bytes, up to a buffer full; the bytes pass through unchanged. */
  method StreamRaw(reader: Reader, format: AudioFormat, takes: nat) returns (chunks: seq<AudioChunk>, err: StreamError)
    requires reader.Valid()
    modifies reader
    ensures HandedOut(chunks, err, reader.data[old(reader.pos)..], format, takes)
  {
    chunks := [];
    ghost var start := reader.pos;
    while reader.pos < |reader.data|
      invariant reader.Valid() && start <= reader.pos && |chunks| <= takes
      invariant Audio(chunks) == reader.data[start..reader.pos] && WellCut(chunks, format)
      decreases |reader.data| - reader.pos
    {
      var n: nat :| 0 < n <= PIECE && reader.pos + n <= |reader.data|;
      var read, _ := reader.ReadFull(n);
      RawPiece(chunks, reader.data, start, reader.pos - n, n, format);
      chunks := chunks + [AudioChunk(read, format)];
      if |chunks| > takes {
        return chunks, CallbackFailed;
      }
    }
    err := NoError;
  }

  /** streamTTSAudio: unwraps a WAVE header if there is one, and otherwise passes the bytes through. */
  method StreamTTSAudio(body: seq<byte>, requested: AudioFormat, takes: nat)
    returns (chunks: seq<AudioChunk>, err: StreamError)
    ensures !IsWav(body) ==> HandedOut(chunks, err, body, requested, takes)
    ensures IsWav(body) ==> Streamed(chunks, err) == Heeding(Stream(ChunksFrom(body, 12), requested, false), takes)
  {
    var reader := new Reader(body);
    if |body| < 12 || TagAt(body, 0) != RIFF || TagAt(body, 8) != WAVE {
      chunks, err := StreamRaw(reader, requested, takes);
      return;
    }
    var ok := reader.Discard(12);
    var stats;
    chunks, stats, err := StreamWavAsPcm(reader, requested, takes);
  }
}
