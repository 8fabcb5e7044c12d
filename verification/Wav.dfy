/**
 RIFF/WAVE: the printer (internal/provider/openai_compatible.go:956-994), the parser of a whole buffer
 (internal/saytts/saytts.go:92-142) and the parser of a stream (internal/provider/openai_compatible.go:664-794).
 */
module Wav {
  import opened Common
  import opened Bytes
  import opened AudioFormats

  // "RIFF", "WAVE", "fmt " and "data"
  const RIFF := Tag(82, 73, 70, 70)
  const WAVE := Tag(87, 65, 86, 69)
  const FMT := Tag(102, 109, 116, 32)
  const DATA := Tag(100, 97, 116, 97)

  const BYTES_PER_SAMPLE := 2
  const PIECE := 1024

  datatype WavError =
    | EmptyAudio | UnsupportedCodec
    | InvalidWav | TruncatedChunk | InvalidFmt | UnsupportedFormat | MissingFmt | MissingData

  // ---- Printing ----

  function FmtBody(channels: nat, rate: nat, byteRate: nat): (b: seq<byte>)
    ensures |b| == 16
  {
    LE16(1) + LE16(channels) + LE32(rate) + LE32(byteRate) + LE16(channels * BYTES_PER_SAMPLE)
    + LE16(BYTES_PER_SAMPLE * 8)
  }

  function WavFile(channels: nat, rate: nat, byteRate: nat, pcm: seq<byte>): seq<byte> {
    RIFF.Bytes() + LE32(36 + |pcm|) + WAVE.Bytes()
    + (FMT.Bytes() + LE32(16) + FmtBody(channels, rate, byteRate))
    + (DATA.Bytes() + LE32(|pcm|)) + pcm
  }

  /** pcmToWAV appends to a buffer; every field is cut to its width. */
  method PcmToWav(format: AudioFormat, pcm: seq<byte>) returns (r: Result<seq<byte>, WavError>)
    ensures r == Printed(format, pcm)
  {
    if |pcm| == 0 {
      return Err(EmptyAudio);
    }
    if format.codec != "" && format.codec != PCM_S16LE {
      return Err(UnsupportedCodec);
    }
    var sampleRate := EffectiveRate(format);
    var channels := EffectiveChannels(format);
    var byteRate := sampleRate * channels * BYTES_PER_SAMPLE;
    var blockAlign := channels * BYTES_PER_SAMPLE;
    var dataSize := |pcm|;
    var riffSize := 36 + dataSize;

    var body := LE16(1);
    body := body + LE16(channels);
    body := body + LE32(sampleRate);
    body := body + LE32(byteRate);
    body := body + LE16(blockAlign);
    body := body + LE16(BYTES_PER_SAMPLE * 8);
    var header := RIFF.Bytes();
    header := header + LE32(riffSize);
    header := header + WAVE.Bytes();
    header := header + (FMT.Bytes() + LE32(16) + body);
    header := header + (DATA.Bytes() + LE32(dataSize));
    header := header + pcm;
    r := Ok(header);
  }

  function Printed(format: AudioFormat, pcm: seq<byte>): Result<seq<byte>, WavError> {
    if |pcm| == 0 then Err(EmptyAudio)
    else if format.codec != "" && format.codec != PCM_S16LE then Err(UnsupportedCodec)
    else
      var channels, rate := EffectiveChannels(format), EffectiveRate(format);
      Ok(WavFile(channels, rate, rate * channels * BYTES_PER_SAMPLE, pcm))
  }

  // ---- Chunks ----

  datatype ChunkKind = FmtChunk | DataChunk | OtherChunk

  /** One chunk as it lies in a file: the declared size, and as much of the body as there is. */
  datatype Chunk = Chunk(kind: ChunkKind, size: nat, body: seq<byte>, padded: bool) {
    /** The body is all there. */
    predicate Complete() {
      |body| == size
    }
  }

  function KindOf(id: Tag): ChunkKind {
    if id == FMT then FmtChunk else if id == DATA then DataChunk else OtherChunk
  }

  function ChunkAt(wav: seq<byte>, offset: nat): (c: Chunk)
    requires offset + 8 <= |wav|
    ensures |c.body| <= c.size < TWO_32
  {
    var size := U32LE(wav, offset + 4);
    var start := offset + 8;
    var end := start + size;
    Chunk(KindOf(TagAt(wav, offset)), size,
          if end <= |wav| then wav[start..end] else wav[start..],
          size % 2 == 0 || end < |wav|)
  }

  /** Where the next chunk begins: chunks are padded to an even length, and so start at even offsets. */
  function NextOffset(offset: nat, size: nat): (next: nat)
    ensures next >= offset + 8
    ensures offset % 2 == 0 ==> next % 2 == 0
    ensures offset % 2 == 0 ==> next == offset + 8 + size + (offset + 8 + size) % 2
  {
    offset + 8 + size + size % 2
  }

  /** The chunks from an offset on; an odd chunk is followed by a padding byte, an incomplete one by nothing. */
  function ChunksFrom(wav: seq<byte>, offset: nat): seq<Chunk>
    decreases |wav| - offset
  {
    if offset + 8 > |wav| then []
    else
      var c := ChunkAt(wav, offset);
      [c] + if c.Complete() then ChunksFrom(wav, NextOffset(offset, c.size)) else []
  }

  lemma ChunksStep(wav: seq<byte>, offset: nat)
    requires offset + 8 <= |wav|
    ensures var chunks, c := ChunksFrom(wav, offset), ChunkAt(wav, offset);
            && chunks != [] && chunks[0] == c
            && chunks[1..] == if c.Complete() then ChunksFrom(wav, NextOffset(offset, c.size)) else []
  {
  }

  /** The format in a fmt chunk of at least sixteen bytes: 16-bit PCM or nothing. */
  function FormatIn(body: seq<byte>): Option<AudioFormat>
    requires |body| >= 16
  {
    if U16LE(body, 0) != 1 || U16LE(body, 14) != 16 then None
    else Some(AudioFormat(PCM_S16LE, U32LE(body, 4), U16LE(body, 2)))
  }

  // ---- The fields of a file, by position ----

  /** Two or four bytes, least significant first, hold a value cut to their width. */
  ghost predicate Holds16(s: seq<byte>, at: nat, n: nat) {
    at + 2 <= |s| && s[at] as int + 256 * s[at + 1] as int == n % 65_536
  }

  ghost predicate Holds32(s: seq<byte>, at: nat, n: nat) {
    && at + 4 <= |s|
    && s[at] as int + 256 * s[at + 1] as int + 65_536 * s[at + 2] as int + 16_777_216 * s[at + 3] as int
       == n % 4_294_967_296
  }

  ghost predicate Spells(s: seq<byte>, at: nat, word: string) {
    at + |word| <= |s| && forall k :: 0 <= k < |word| ==> s[at + k] as int == word[k] as int
  }

  lemma Written16(s: seq<byte>, at: nat, n: nat)
    requires at + 2 <= |s| && s[at..at + 2] == LE16(n)
    ensures Holds16(s, at, n)
  {
    LE16RoundTrip(n);
    assert s[at..at + 2][0] == s[at] && s[at..at + 2][1] == s[at + 1];
  }

  lemma Written32(s: seq<byte>, at: nat, n: nat)
    requires at + 4 <= |s| && s[at..at + 4] == LE32(n)
    ensures Holds32(s, at, n)
  {
    LE32RoundTrip(n);
    var four := s[at..at + 4];
    assert four[0] == s[at] && four[1] == s[at + 1] && four[2] == s[at + 2] && four[3] == s[at + 3];
  }

  lemma WrittenTag(s: seq<byte>, at: nat, tag: Tag, word: string)
    requires at + 4 <= |s| && s[at..at + 4] == tag.Bytes() && |word| == 4
    requires tag.a as int == word[0] as int && tag.b as int == word[1] as int
    requires tag.c as int == word[2] as int && tag.d as int == word[3] as int
    ensures Spells(s, at, word)
  {
    var four := s[at..at + 4];
    assert four[0] == s[at] && four[1] == s[at + 1] && four[2] == s[at + 2] && four[3] == s[at + 3];
  }

  /** The pieces of the printed file, each at its place. */
  lemma FileLayout(channels: nat, rate: nat, byteRate: nat, pcm: seq<byte>)
    ensures var f := WavFile(channels, rate, byteRate, pcm);
            && |f| == 44 + |pcm| && f[44..] == pcm
            && f[0..4] == RIFF.Bytes() && f[4..8] == LE32(36 + |pcm|) && f[8..12] == WAVE.Bytes()
            && f[12..16] == FMT.Bytes() && f[16..20] == LE32(16) && f[20..36] == FmtBody(channels, rate, byteRate)
            && f[36..40] == DATA.Bytes() && f[40..44] == LE32(|pcm|)
  {
    var riff := RIFF.Bytes() + LE32(36 + |pcm|) + WAVE.Bytes();
    var fmt := FMT.Bytes() + LE32(16) + FmtBody(channels, rate, byteRate);
    var data := DATA.Bytes() + LE32(|pcm|);
    var f := WavFile(channels, rate, byteRate, pcm);
    assert f == riff + fmt + data + pcm;
    assert f[0..12] == riff && f[12..36] == fmt && f[36..44] == data;
    SliceOfSlice(f, 0, 12, 0, 4);
    SliceOfSlice(f, 0, 12, 4, 8);
    SliceOfSlice(f, 0, 12, 8, 12);
    SliceOfSlice(f, 12, 36, 0, 4);
    SliceOfSlice(f, 12, 36, 4, 8);
    SliceOfSlice(f, 12, 36, 8, 24);
    SliceOfSlice(f, 36, 44, 0, 4);
    SliceOfSlice(f, 36, 44, 4, 8);
  }

  lemma FmtLayout(channels: nat, rate: nat, byteRate: nat, f: seq<byte>, at: nat)
    requires at + 16 <= |f| && f[at..at + 16] == FmtBody(channels, rate, byteRate)
    ensures Holds16(f, at, 1) && Holds16(f, at + 2, channels) && Holds32(f, at + 4, rate)
    ensures Holds32(f, at + 8, byteRate) && Holds16(f, at + 12, channels * 2) && Holds16(f, at + 14, 16)
  {
    var body := FmtBody(channels, rate, byteRate);
    assert body[0..2] == LE16(1) && body[2..4] == LE16(channels) && body[4..8] == LE32(rate);
    assert body[8..12] == LE32(byteRate) && body[12..14] == LE16(channels * 2);
    var front := LE16(1) + LE16(channels) + LE32(rate) + LE32(byteRate) + LE16(channels * BYTES_PER_SAMPLE);
    assert body == front + LE16(BYTES_PER_SAMPLE * 8) && body[14..16] == body[14..];
    SliceOfSlice(f, at, at + 16, 0, 2);
    SliceOfSlice(f, at, at + 16, 2, 4);
    SliceOfSlice(f, at, at + 16, 4, 8);
    SliceOfSlice(f, at, at + 16, 8, 12);
    SliceOfSlice(f, at, at + 16, 12, 14);
    SliceOfSlice(f, at, at + 16, 14, 16);
    Written16(f, at, 1);
    Written16(f, at + 2, channels);
    Written32(f, at + 4, rate);
    Written32(f, at + 8, byteRate);
    Written16(f, at + 12, channels * 2);
    Written16(f, at + 14, 16);
  }

  /** Every field of a printed file: the sizes, one for PCM, the channels, the rates and the alignment, and the audio. */
  lemma PrintedFields(format: AudioFormat, pcm: seq<byte>, rate: nat, channels: nat)
    requires Plays(format, rate, channels)
    ensures match Printed(format, pcm)
            case Err(EmptyAudio) => pcm == []
            case Err(e) => e == UnsupportedCodec && pcm != [] && format.codec !in {"", "pcm_s16le"}
            case Ok(f) =>
              && pcm != [] && format.codec in {"", "pcm_s16le"}
              && |f| == 44 + |pcm| && f[44..] == pcm
              && Spells(f, 0, "RIFF") && Holds32(f, 4, |f| - 8) && Spells(f, 8, "WAVE")
              && Spells(f, 12, "fmt ") && Holds32(f, 16, 16)
              && Holds16(f, 20, 1) && Holds16(f, 22, channels) && Holds32(f, 24, rate)
              && Holds32(f, 28, rate * channels * 2) && Holds16(f, 32, channels * 2) && Holds16(f, 34, 16)
              && Spells(f, 36, "data") && Holds32(f, 40, |pcm|)
  {
    if Printed(format, pcm).Ok? {
      var f := Printed(format, pcm).value;
      FileLayout(channels, rate, rate * channels * 2, pcm);
      WrittenTag(f, 0, RIFF, "RIFF");
      Written32(f, 4, 36 + |pcm|);
      WrittenTag(f, 8, WAVE, "WAVE");
      WrittenTag(f, 12, FMT, "fmt ");
      Written32(f, 16, 16);
      FmtLayout(channels, rate, rate * channels * 2, f, 20);
      WrittenTag(f, 36, DATA, "data");
      Written32(f, 40, |pcm|);
    }
  }

  // ---- Parsing a buffer ----

  /** What the walk over the chunks has found so far; the last fmt and the last data chunk win. */
  datatype Found = Found(format: Option<AudioFormat>, pcm: seq<byte>)

  const NOTHING := Found(None, [])

  function Visit(c: Chunk, found: Found): Result<Found, WavError> {
    if !c.Complete() then Err(TruncatedChunk)
    else
      match c.kind
      case FmtChunk =>
        if c.size < 16 then Err(InvalidFmt)
        else if FormatIn(c.body).None? then Err(UnsupportedFormat)
        else Ok(found.(format := FormatIn(c.body)))
      case DataChunk => Ok(found.(pcm := c.body))
      case OtherChunk => Ok(found)
  }

  function Walk(chunks: seq<Chunk>, found: Found): Result<Found, WavError> {
    if chunks == [] then Ok(found)
    else
      var step := Visit(chunks[0], found);
      if step.Err? then step else Walk(chunks[1..], step.value)
  }

  predicate IsWav(wav: seq<byte>) {
    |wav| >= 12 && TagAt(wav, 0) == RIFF && TagAt(wav, 8) == WAVE
  }

  function Conclude(walked: Result<Found, WavError>): Result<(seq<byte>, AudioFormat), WavError> {
    if walked.Err? then Err(walked.error)
    else if walked.value.format.None? then Err(MissingFmt)
    else if walked.value.pcm == [] then Err(MissingData)
    else Ok((walked.value.pcm, walked.value.format.value))
  }

  function Parsed(wav: seq<byte>): Result<(seq<byte>, AudioFormat), WavError> {
    if !IsWav(wav) then Err(InvalidWav) else Conclude(Walk(ChunksFrom(wav, 12), NOTHING))
  }

  lemma ShiftedFields(wav: seq<byte>, start: nat, body: seq<byte>)
    requires 16 <= |body| && start + |body| <= |wav| && body == wav[start..start + |body|]
    ensures U16LE(body, 0) == U16LE(wav, start) && U16LE(body, 2) == U16LE(wav, start + 2)
    ensures U32LE(body, 4) == U32LE(wav, start + 4) && U16LE(body, 14) == U16LE(wav, start + 14)
  {
    assert body[0] == wav[start] && body[1] == wav[start + 1];
    assert body[2] == wav[start + 2] && body[3] == wav[start + 3];
    assert body[4] == wav[start + 4] && body[5] == wav[start + 5];
    assert body[6] == wav[start + 6] && body[7] == wav[start + 7];
    assert body[14] == wav[start + 14] && body[15] == wav[start + 15];
  }

  // ---- What is parsed, by position ----

  /** The number that four bytes hold, least significant first. */
  function Size(s: seq<byte>, at: nat): nat
    requires at + 4 <= |s|
  {
    s[at] as int + 256 * s[at + 1] as int + 65_536 * s[at + 2] as int + 16_777_216 * s[at + 3] as int
  }

  /** Chunk headers one after the other from an offset on, each behind the padded body of the one before, to the end. */
  ghost predicate Headers(wav: seq<byte>, offset: nat, offsets: seq<nat>)
    decreases |offsets|
  {
    if offsets == [] then offset + 8 > |wav|
    else
      && offsets[0] == offset && offset + 8 <= |wav| && offset + 8 + Size(wav, offset + 4) <= |wav|
      && Headers(wav, Behind(offset + 8 + Size(wav, offset + 4)), offsets[1..])
  }

  /** Where a chunk begins when the one before it ends here. */
  function Behind(end: nat): nat {
    end + end % 2
  }

  /** The last of the offsets at which a chunk of this name begins. */
  ghost function LastNamed(wav: seq<byte>, offsets: seq<nat>, word: string): Option<nat> {
    if offsets == [] then None
    else
      var later := LastNamed(wav, offsets[1..], word);
      if later.Some? then later else if Spells(wav, offsets[0], word) then Some(offsets[0]) else None
  }

  /** The format that a fmt chunk gives, if it is 16-bit PCM. */
  ghost predicate GivesFormat(wav: seq<byte>, offset: nat, format: AudioFormat) {
    && offset + 24 <= |wav| && Size(wav, offset + 4) >= 16
    && wav[offset + 8] == 1 && wav[offset + 9] == 0 && wav[offset + 22] == 16 && wav[offset + 23] == 0
    && format == AudioFormat("pcm_s16le", Size(wav, offset + 12), wav[offset + 10] as int + 256 * wav[offset + 11] as int)
  }

  ghost predicate GivesAudio(wav: seq<byte>, offset: nat, pcm: seq<byte>) {
    && offset + 8 <= |wav| && offset + 8 + Size(wav, offset + 4) <= |wav|
    && pcm == wav[offset + 8..offset + 8 + Size(wav, offset + 4)]
  }

  /** What has been found at some offsets, given what was found before: the last chunk of each kind decides. */
  ghost predicate FoundAt(wav: seq<byte>, offsets: seq<nat>, before: Found, after: Found) {
    && match LastNamed(wav, offsets, "fmt ") {
         case None => after.format == before.format
         case Some(at) => after.format.Some? && GivesFormat(wav, at, after.format.value)
       }
    && match LastNamed(wav, offsets, "data") {
         case None => after.pcm == before.pcm
         case Some(at) => GivesAudio(wav, at, after.pcm)
       }
  }

  lemma ChunkIsNamed(wav: seq<byte>, offset: nat)
    requires offset + 8 <= |wav|
    ensures ChunkAt(wav, offset).size == Size(wav, offset + 4)
    ensures ChunkAt(wav, offset).kind.FmtChunk? <==> Spells(wav, offset, "fmt ")
    ensures ChunkAt(wav, offset).kind.DataChunk? <==> Spells(wav, offset, "data")
    ensures ChunkAt(wav, offset).Complete() <==> offset + 8 + Size(wav, offset + 4) <= |wav|
  {
    var t := TagAt(wav, offset);
    assert Spells(wav, offset, "fmt ") <==> t == FMT by {
      FourLetters(wav, offset, FMT, "fmt ");
    }
    assert Spells(wav, offset, "data") <==> t == DATA by {
      FourLetters(wav, offset, DATA, "data");
    }
  }

  lemma FourLetters(s: seq<byte>, at: nat, tag: Tag, word: string)
    requires at + 4 <= |s| && |word| == 4
    requires tag.a as int == word[0] as int && tag.b as int == word[1] as int
    requires tag.c as int == word[2] as int && tag.d as int == word[3] as int
    ensures Spells(s, at, word) <==> TagAt(s, at) == tag
  {
    if Spells(s, at, word) {
      assert s[at + 0] as int == word[0] as int && s[at + 1] as int == word[1] as int;
      assert s[at + 2] as int == word[2] as int && s[at + 3] as int == word[3] as int;
    }
  }

  lemma VisitFinds(wav: seq<byte>, offset: nat, found: Found)
    requires offset + 8 <= |wav| && Visit(ChunkAt(wav, offset), found).Ok?
    ensures offset + 8 + Size(wav, offset + 4) <= |wav|
    ensures var next := Visit(ChunkAt(wav, offset), found).value;
            && (if Spells(wav, offset, "fmt ") then next.format.Some? && GivesFormat(wav, offset, next.format.value)
                else next.format == found.format)
            && (if Spells(wav, offset, "data") then GivesAudio(wav, offset, next.pcm) else next.pcm == found.pcm)
  {
    ChunkIsNamed(wav, offset);
    var c := ChunkAt(wav, offset);
    if c.kind.FmtChunk? {
      ShiftedFields(wav, offset + 8, c.body);
      assert !Spells(wav, offset, "data");
    }
  }

  lemma FoundMore(wav: seq<byte>, offset: nat, rest: seq<nat>, before: Found, next: Found, after: Found)
    requires FoundAt(wav, rest, next, after)
    requires if Spells(wav, offset, "fmt ") then next.format.Some? && GivesFormat(wav, offset, next.format.value)
             else next.format == before.format
    requires if Spells(wav, offset, "data") then GivesAudio(wav, offset, next.pcm) else next.pcm == before.pcm
    ensures FoundAt(wav, [offset] + rest, before, after)
  {
    assert ([offset] + rest)[1..] == rest;
  }

  lemma NextIsBehind(wav: seq<byte>, offset: nat)
    requires offset % 2 == 0 && offset + 8 <= |wav|
    ensures NextOffset(offset, ChunkAt(wav, offset).size) == Behind(offset + 8 + Size(wav, offset + 4))
  {
    ChunkIsNamed(wav, offset);
  }

  lemma OneHeaderMore(wav: seq<byte>, offset: nat, rest: seq<nat>)
    requires offset + 8 <= |wav| && offset + 8 + Size(wav, offset + 4) <= |wav|
    requires Headers(wav, Behind(offset + 8 + Size(wav, offset + 4)), rest)
    ensures Headers(wav, offset, [offset] + rest)
  {
    assert ([offset] + rest)[1..] == rest;
  }

  lemma {:induction false} WalkFinds(wav: seq<byte>, offset: nat, found: Found) returns (offsets: seq<nat>)
    requires offset % 2 == 0 && Walk(ChunksFrom(wav, offset), found).Ok?
    ensures Headers(wav, offset, offsets) && FoundAt(wav, offsets, found, Walk(ChunksFrom(wav, offset), found).value)
    decreases |wav| - offset
  {
    if offset + 8 > |wav| {
      offsets := [];
    } else {
      var c := ChunkAt(wav, offset);
      var next := WalkStep(wav, offset, found);
      var rest := WalkFinds(wav, NextOffset(offset, c.size), next);
      offsets := [offset] + rest;
      NextIsBehind(wav, offset);
      ChunkIsNamed(wav, offset);
      OneHeaderMore(wav, offset, rest);
      VisitFinds(wav, offset, found);
      FoundMore(wav, offset, rest, found, next, Walk(ChunksFrom(wav, offset), found).value);
    }
  }

  lemma WalkStep(wav: seq<byte>, offset: nat, found: Found) returns (next: Found)
    requires offset + 8 <= |wav| && Walk(ChunksFrom(wav, offset), found).Ok?
    ensures var c := ChunkAt(wav, offset);
            && c.Complete() && Visit(c, found) == Ok(next)
            && Walk(ChunksFrom(wav, offset), found) == Walk(ChunksFrom(wav, NextOffset(offset, c.size)), next)
  {
    ChunksStep(wav, offset);
    next := Visit(ChunkAt(wav, offset), found).value;
  }

  /** Every fmt chunk gives a format. */
  ghost predicate FormatsAreKnown(wav: seq<byte>, offsets: seq<nat>) {
    forall k :: 0 <= k < |offsets| && Spells(wav, offsets[k], "fmt ") ==> exists format :: GivesFormat(wav, offsets[k], format)
  }

  lemma KnownFormat(wav: seq<byte>, offset: nat, format: AudioFormat)
    requires offset + 8 <= |wav| && ChunkAt(wav, offset).Complete() && GivesFormat(wav, offset, format)
    ensures ChunkAt(wav, offset).size >= 16 && FormatIn(ChunkAt(wav, offset).body).Some?
  {
    ChunkIsNamed(wav, offset);
    ShiftedFields(wav, offset + 8, ChunkAt(wav, offset).body);
  }

  lemma VisitSucceeds(wav: seq<byte>, offset: nat, found: Found) returns (next: Found)
    requires offset % 2 == 0 && offset + 8 <= |wav| && offset + 8 + Size(wav, offset + 4) <= |wav|
    requires Spells(wav, offset, "fmt ") ==> exists format :: GivesFormat(wav, offset, format)
    ensures Visit(ChunkAt(wav, offset), found) == Ok(next)
    ensures Walk(ChunksFrom(wav, offset), found)
            == Walk(ChunksFrom(wav, Behind(offset + 8 + Size(wav, offset + 4))), next)
  {
    ChunkIsNamed(wav, offset);
    ChunksStep(wav, offset);
    NextIsBehind(wav, offset);
    if Spells(wav, offset, "fmt ") {
      var format :| GivesFormat(wav, offset, format);
      KnownFormat(wav, offset, format);
    }
    next := Visit(ChunkAt(wav, offset), found).value;
  }

  lemma HeadersStep(wav: seq<byte>, offset: nat, offsets: seq<nat>) returns (next: nat)
    requires Headers(wav, offset, offsets) && offsets != []
    ensures offsets == [offset] + offsets[1..] && offset + 8 <= |wav|
    ensures offset + 8 + Size(wav, offset + 4) <= |wav| && next == Behind(offset + 8 + Size(wav, offset + 4))
    ensures Headers(wav, next, offsets[1..]) && next % 2 == 0
  {
    next := Behind(offset + 8 + Size(wav, offset + 4));
  }

  lemma {:induction false} WalkSucceeds(wav: seq<byte>, offset: nat, offsets: seq<nat>, found: Found)
    returns (after: Found)
    requires offset % 2 == 0 && Headers(wav, offset, offsets) && FormatsAreKnown(wav, offsets)
    ensures Walk(ChunksFrom(wav, offset), found) == Ok(after) && FoundAt(wav, offsets, found, after)
    decreases |offsets|
  {
    if offsets == [] {
      after := found;
    } else {
      FormatsOfRest(wav, offsets);
      var behind := HeadersStep(wav, offset, offsets);
      var next := VisitSucceeds(wav, offset, found);
      after := WalkSucceeds(wav, behind, offsets[1..], next);
      VisitFinds(wav, offset, found);
      FoundMore(wav, offset, offsets[1..], found, next, after);
    }
  }

  lemma FormatsOfRest(wav: seq<byte>, offsets: seq<nat>)
    requires offsets != [] && FormatsAreKnown(wav, offsets)
    ensures FormatsAreKnown(wav, offsets[1..])
    ensures Spells(wav, offsets[0], "fmt ") ==> exists format :: GivesFormat(wav, offsets[0], format)
  {
    forall k | 0 <= k < |offsets[1..]| && Spells(wav, offsets[1..][k], "fmt ")
      ensures exists format :: GivesFormat(wav, offsets[1..][k], format)
    {
      assert offsets[1..][k] == offsets[k + 1];
    }
  }

  /** Every file of this shape is parsed, if it has a format, and audio in its last data chunk. */
  lemma WellFormedIsParsed(wav: seq<byte>, offsets: seq<nat>)
    requires |wav| >= 12 && Spells(wav, 0, "RIFF") && Spells(wav, 8, "WAVE") && Headers(wav, 12, offsets)
    requires FormatsAreKnown(wav, offsets)
    ensures var f, d := LastNamed(wav, offsets, "fmt "), LastNamed(wav, offsets, "data");
            match Parsed(wav)
            case Ok(_) => f.Some? && d.Some? && !GivesAudio(wav, d.value, [])
            case Err(e) =>
              if f.None? then e == MissingFmt else e == MissingData && (d.None? || GivesAudio(wav, d.value, []))
  {
    FourLetters(wav, 0, RIFF, "RIFF");
    FourLetters(wav, 8, WAVE, "WAVE");
    var found := WalkSucceeds(wav, 12, offsets, NOTHING);
  }

  /** A file that does not begin as it should is not looked at any further. */
  lemma InvalidIff(wav: seq<byte>)
    ensures Parsed(wav) == Err(InvalidWav) <==> |wav| < 12 || !Spells(wav, 0, "RIFF") || !Spells(wav, 8, "WAVE")
  {
    if |wav| >= 12 {
      FourLetters(wav, 0, RIFF, "RIFF");
      FourLetters(wav, 8, WAVE, "WAVE");
      WalkIsValid(ChunksFrom(wav, 12), NOTHING);
    }
  }

  lemma {:induction false} WalkIsValid(chunks: seq<Chunk>, found: Found)
    ensures Walk(chunks, found).Err? ==> Walk(chunks, found).error in {TruncatedChunk, InvalidFmt, UnsupportedFormat}
  {
    if chunks != [] && Visit(chunks[0], found).Ok? {
      WalkIsValid(chunks[1..], Visit(chunks[0], found).value);
    }
  }

  /** The error of a chunk: cut short, a fmt chunk too small, or one that is not 16-bit PCM; in this order. */
  lemma ChunkErrors(wav: seq<byte>, offset: nat, found: Found)
    requires offset + 8 <= |wav| && Visit(ChunkAt(wav, offset), found).Err?
    ensures var e, size := Visit(ChunkAt(wav, offset), found).error, Size(wav, offset + 4);
            if offset + 8 + size > |wav| then e == TruncatedChunk
            else Spells(wav, offset, "fmt ") && e == if size < 16 then InvalidFmt else UnsupportedFormat
    ensures forall format :: !GivesFormat(wav, offset, format) || offset + 8 + Size(wav, offset + 4) > |wav|
  {
    ChunkIsNamed(wav, offset);
    forall format | GivesFormat(wav, offset, format) && offset + 8 + Size(wav, offset + 4) <= |wav| ensures false {
      KnownFormat(wav, offset, format);
    }
  }

  /**
   What parsing a buffer gives, in terms of its bytes: from offset 12 on the file is chunk after chunk, complete and
   padded; the audio is the body of the last data chunk, and the format that of the last fmt chunk.
   */
  lemma ParsedByPosition(wav: seq<byte>) returns (offsets: seq<nat>)
    requires Parsed(wav).Ok?
    ensures Spells(wav, 0, "RIFF") && Spells(wav, 8, "WAVE") && Headers(wav, 12, offsets)
    ensures var (pcm, format) := Parsed(wav).value;
            var f, d := LastNamed(wav, offsets, "fmt "), LastNamed(wav, offsets, "data");
            f.Some? && d.Some? && GivesFormat(wav, f.value, format) && GivesAudio(wav, d.value, pcm) && pcm != []
  {
    FourLetters(wav, 0, RIFF, "RIFF");
    FourLetters(wav, 8, WAVE, "WAVE");
    offsets := WalkFinds(wav, 12, NOTHING);
  }

  /** The body of the loop of PCMFromWAV. */
  method VisitChunk(wav: seq<byte>, offset: nat, format: Option<AudioFormat>, pcm: seq<byte>)
    returns (r: Result<Found, WavError>, next: nat)
    requires offset + 8 <= |wav| && offset % 2 == 0
    ensures r == Visit(ChunkAt(wav, offset), Found(format, pcm))
    ensures r.Ok? ==> ChunkAt(wav, offset).Complete() && next == NextOffset(offset, ChunkAt(wav, offset).size)
  {
    next := offset;
    var found := Found(format, pcm);
    var chunkID := TagAt(wav, offset);
    var chunkSize := U32LE(wav, offset + 4);
    var chunkStart := offset + 8;
    var chunkEnd := chunkStart + chunkSize;
    if chunkEnd > |wav| {
      return Err(TruncatedChunk), next;
    }
    if chunkID == FMT {
      if chunkSize < 16 {
        return Err(InvalidFmt), next;
      }
      ShiftedFields(wav, chunkStart, wav[chunkStart..chunkEnd]);
      var audioFormat := U16LE(wav, chunkStart);
      var channels := U16LE(wav, chunkStart + 2);
      var sampleRate := U32LE(wav, chunkStart + 4);
      var bitsPerSample := U16LE(wav, chunkStart + 14);
      if audioFormat != 1 || bitsPerSample != 16 {
        return Err(UnsupportedFormat), next;
      }
      found := found.(format := Some(AudioFormat(PCM_S16LE, sampleRate, channels)));
    } else if chunkID == DATA {
      found := found.(pcm := wav[chunkStart..chunkEnd]);
    }
    next := chunkEnd;
    if next % 2 != 0 {
      next := next + 1;
    }
    r := Ok(found);
  }

  /** PCMFromWAV: one loop over the chunks. */
  method PcmFromWav(wav: seq<byte>) returns (r: Result<(seq<byte>, AudioFormat), WavError>)
    ensures r == Parsed(wav)
  {
    if |wav| < 12 || TagAt(wav, 0) != RIFF || TagAt(wav, 8) != WAVE {
      return Err(InvalidWav);
    }
    var found := NOTHING;
    var offset := 12;
    ghost var chunks := ChunksFrom(wav, offset);
    ghost var walked := Walk(chunks, found);
    while offset + 8 <= |wav|
      invariant offset >= 12 && offset % 2 == 0 && chunks == ChunksFrom(wav, offset)
      invariant walked == Walk(chunks, found)
      decreases |wav| - offset
    {
      var step, next := VisitChunk(wav, offset, found.format, found.pcm);
      ChunksStep(wav, offset);
      if step.Err? {
        return Err(step.error);
      }
      found := step.value;
      chunks := chunks[1..];
      offset := next;
    }
    if found.format.None? {
      return Err(MissingFmt);
    }
    if |found.pcm| == 0 {
      return Err(MissingData);
    }
    r := Ok((found.pcm, found.format.value));
  }

  // ---- The parser undoes the printer ----

  /** Where the parts of a printed file lie. */
  ghost predicate HasLayout(file: seq<byte>, channels: nat, rate: nat, byteRate: nat, pcm: seq<byte>) {
    && |file| == 44 + |pcm|
    && TagAt(file, 0) == RIFF && TagAt(file, 8) == WAVE
    && TagAt(file, 12) == FMT && file[16..20] == LE32(16)
    && file[20..36] == FmtBody(channels, rate, byteRate)
    && TagAt(file, 36) == DATA && file[40..44] == LE32(|pcm|) && file[44..] == pcm
  }

  lemma PrintedLayout(channels: nat, rate: nat, byteRate: nat, pcm: seq<byte>)
    ensures HasLayout(WavFile(channels, rate, byteRate, pcm), channels, rate, byteRate, pcm)
  {
    var head := RIFF.Bytes() + LE32(36 + |pcm|) + WAVE.Bytes();
    var fmt := FMT.Bytes() + LE32(16) + FmtBody(channels, rate, byteRate);
    var data := DATA.Bytes() + LE32(|pcm|);
    var file := WavFile(channels, rate, byteRate, pcm);
    assert |head| == 12 && |fmt| == 24 && |data| == 8;
    assert file == head + fmt + data + pcm;
    assert file[..12] == head && file[12..36] == fmt && file[36..44] == data && file[44..] == pcm;
    TagsInside(file, 0, head);
    TagsInside(file, 12, fmt);
    TagsInside(file, 36, data);
    SliceOfSlice(file, 12, 36, 4, 8);
    SliceOfSlice(file, 12, 36, 8, 24);
    SliceOfSlice(file, 36, 44, 4, 8);
  }

  lemma TagsInside(file: seq<byte>, at: nat, part: seq<byte>)
    requires 8 <= |part| && at + |part| <= |file| && file[at..at + |part|] == part
    ensures TagAt(file, at) == TagAt(part, 0)
    ensures |part| >= 12 ==> TagAt(file, at + 8) == TagAt(part, 8)
  {
    assert part[0] == file[at] && part[1] == file[at + 1] && part[2] == file[at + 2] && part[3] == file[at + 3];
    if |part| >= 12 {
      assert part[8] == file[at + 8] && part[9] == file[at + 9];
      assert part[10] == file[at + 10] && part[11] == file[at + 11];
    }
  }

  lemma Field32(s: seq<byte>, at: nat, n: nat)
    requires at + 4 <= |s| && s[at..at + 4] == LE32(n)
    ensures U32LE(s, at) == n % TWO_32
  {
    LE32RoundTrip(n);
    var field := s[at..at + 4];
    assert s[at] == field[0] && s[at + 1] == field[1] && s[at + 2] == field[2] && s[at + 3] == field[3];
  }

  lemma Field16(s: seq<byte>, at: nat, n: nat)
    requires at + 2 <= |s| && s[at..at + 2] == LE16(n)
    ensures U16LE(s, at) == n % TWO_16
  {
    LE16RoundTrip(n);
    var field := s[at..at + 2];
    assert s[at] == field[0] && s[at + 1] == field[1];
  }

  lemma FmtFields(channels: nat, rate: nat, byteRate: nat)
    ensures FormatIn(FmtBody(channels, rate, byteRate))
         == Some(AudioFormat(PCM_S16LE, rate % TWO_32, channels % TWO_16))
  {
    var body := FmtBody(channels, rate, byteRate);
    assert body[0..2] == LE16(1) && body[2..4] == LE16(channels);
    assert body[4..8] == LE32(rate);
    var front := LE16(1) + LE16(channels) + LE32(rate) + LE32(byteRate) + LE16(channels * BYTES_PER_SAMPLE);
    assert body == front + LE16(BYTES_PER_SAMPLE * 8) && body[14..16] == body[14..];
    Field16(body, 0, 1);
    Field16(body, 2, channels);
    Field32(body, 4, rate);
    Field16(body, 14, BYTES_PER_SAMPLE * 8);
  }

  lemma ChunkFields(file: seq<byte>, offset: nat, size: nat, body: seq<byte>)
    requires size < TWO_32 && |body| == size && offset + 8 + size <= |file|
    requires file[offset + 4..offset + 8] == LE32(size) && file[offset + 8..offset + 8 + size] == body
    ensures ChunkAt(file, offset)
            == Chunk(KindOf(TagAt(file, offset)), size, body, size % 2 == 0 || offset + 8 + size < |file|)
  {
    Field32(file, offset + 4, size);
  }

  lemma FirstChunk(file: seq<byte>, channels: nat, rate: nat, byteRate: nat, pcm: seq<byte>)
    requires HasLayout(file, channels, rate, byteRate, pcm)
    ensures ChunkAt(file, 12) == Chunk(FmtChunk, 16, FmtBody(channels, rate, byteRate), true)
  {
    ChunkFields(file, 12, 16, FmtBody(channels, rate, byteRate));
  }

  lemma SecondChunk(file: seq<byte>, channels: nat, rate: nat, byteRate: nat, pcm: seq<byte>)
    requires HasLayout(file, channels, rate, byteRate, pcm) && |pcm| < TWO_32
    ensures ChunkAt(file, 36) == Chunk(DataChunk, |pcm|, pcm, |pcm| % 2 == 0)
  {
    assert file[44..44 + |pcm|] == file[44..];
    ChunkFields(file, 36, |pcm|, pcm);
  }

  /** The chunks of a printed file: fmt, then data, and nothing else. */
  lemma PrintedChunks(file: seq<byte>, channels: nat, rate: nat, byteRate: nat, pcm: seq<byte>)
    requires HasLayout(file, channels, rate, byteRate, pcm) && |pcm| < TWO_32
    ensures ChunksFrom(file, 12) == [Chunk(FmtChunk, 16, FmtBody(channels, rate, byteRate), true),
                                     Chunk(DataChunk, |pcm|, pcm, |pcm| % 2 == 0)]
  {
    FirstChunk(file, channels, rate, byteRate, pcm);
    SecondChunk(file, channels, rate, byteRate, pcm);
    TwoChunks(file, ChunkAt(file, 12), ChunkAt(file, 36));
  }

  lemma TwoChunks(file: seq<byte>, a: Chunk, b: Chunk)
    requires |file| >= 44 && ChunkAt(file, 12) == a && ChunkAt(file, 36) == b
    requires a.Complete() && a.size == 16 && b.Complete() && 44 + b.size == |file|
    ensures ChunksFrom(file, 12) == [a, b]
  {
    ChunksStep(file, 36);
    assert ChunksFrom(file, NextOffset(36, b.size)) == [];
    ChunksStep(file, 12);
    assert NextOffset(12, 16) == 36;
  }

  lemma WalkTwo(a: Chunk, b: Chunk, found: Found, after: Found)
    requires Visit(a, NOTHING) == Ok(found) && Visit(b, found) == Ok(after)
    ensures Walk([a, b], NOTHING) == Ok(after)
  {
    var both, last := [a, b], [b];
    assert both[1..] == last && last[1..] == [];
    assert Walk(last, found) == Walk([], after);
    assert Walk(both, NOTHING) == Walk(last, found);
  }

  lemma ShortFileRoundTrips(file: seq<byte>, channels: nat, rate: nat, byteRate: nat, pcm: seq<byte>)
    requires HasLayout(file, channels, rate, byteRate, pcm) && 0 < |pcm| < TWO_32
    ensures Parsed(file) == Ok((pcm, AudioFormat(PCM_S16LE, rate % TWO_32, channels % TWO_16)))
  {
    PrintedChunks(file, channels, rate, byteRate, pcm);
    FmtFields(channels, rate, byteRate);
    var found := Found(Some(AudioFormat(PCM_S16LE, rate % TWO_32, channels % TWO_16)), []);
    WalkTwo(Chunk(FmtChunk, 16, FmtBody(channels, rate, byteRate), true),
            Chunk(DataChunk, |pcm|, pcm, |pcm| % 2 == 0), found, found.(pcm := pcm));
  }

  /** No chunk, hence no result, is as long as 2^32 bytes. */
  lemma {:induction false} WalkFindsShortData(chunks: seq<Chunk>, found: Found)
    requires |found.pcm| < TWO_32 && forall i :: 0 <= i < |chunks| ==> chunks[i].size < TWO_32
    ensures var r := Walk(chunks, found); r.Ok? ==> |r.value.pcm| < TWO_32
  {
    if chunks != [] {
      var step := Visit(chunks[0], found);
      if step.Ok? {
        WalkFindsShortData(chunks[1..], step.value);
      }
    }
  }

  lemma {:induction false} ChunksAreShort(wav: seq<byte>, offset: nat)
    ensures forall i :: 0 <= i < |ChunksFrom(wav, offset)| ==> ChunksFrom(wav, offset)[i].size < TWO_32
    decreases |wav| - offset
  {
    if offset + 8 <= |wav| {
      var c := ChunkAt(wav, offset);
      ChunksAreShort(wav, NextOffset(offset, c.size));
    }
  }

  /** The fields of the header hold what they are given. */
  predicate FieldsFit(format: AudioFormat, pcm: seq<byte>) {
    |pcm| < TWO_32 && EffectiveRate(format) < TWO_32 && EffectiveChannels(format) < TWO_16
  }

  /** Parsing undoes printing exactly when every value fits the width of its field. */
  lemma ParsingUndoesPrinting(format: AudioFormat, pcm: seq<byte>)
    requires Printed(format, pcm).Ok?
    ensures Parsed(Printed(format, pcm).value)
            == Ok((pcm, AudioFormat(PCM_S16LE, EffectiveRate(format), EffectiveChannels(format))))
       <==> FieldsFit(format, pcm)
  {
    var channels, rate := EffectiveChannels(format), EffectiveRate(format);
    var byteRate := rate * channels * BYTES_PER_SAMPLE;
    PrintedLayout(channels, rate, byteRate, pcm);
    FileRoundTrips(Printed(format, pcm).value, channels, rate, byteRate, pcm);
  }

  lemma FileRoundTrips(file: seq<byte>, channels: nat, rate: nat, byteRate: nat, pcm: seq<byte>)
    requires pcm != [] && HasLayout(file, channels, rate, byteRate, pcm)
    ensures Parsed(file) == Ok((pcm, AudioFormat(PCM_S16LE, rate, channels)))
       <==> |pcm| < TWO_32 && rate < TWO_32 && channels < TWO_16
  {
    var parsed := Parsed(file);
    if |pcm| < TWO_32 {
      ShortFileRoundTrips(file, channels, rate, byteRate, pcm);
    } else {
      LongDataIsLost(file, pcm);
    }
    WidthsDecide(parsed, channels, rate, pcm);
  }

  lemma WidthsDecide(parsed: Result<(seq<byte>, AudioFormat), WavError>, channels: nat, rate: nat, pcm: seq<byte>)
    requires |pcm| < TWO_32 ==> parsed == Ok((pcm, AudioFormat(PCM_S16LE, rate % TWO_32, channels % TWO_16)))
    requires |pcm| >= TWO_32 ==> parsed.Ok? ==> parsed.value.0 != pcm
    ensures parsed == Ok((pcm, AudioFormat(PCM_S16LE, rate, channels)))
       <==> |pcm| < TWO_32 && rate < TWO_32 && channels < TWO_16
  {
  }

  lemma LongDataIsLost(wav: seq<byte>, pcm: seq<byte>)
    requires |pcm| >= TWO_32
    ensures Parsed(wav).Ok? ==> Parsed(wav).value.0 != pcm
  {
    ChunksAreShort(wav, 12);
    WalkFindsShortData(ChunksFrom(wav, 12), NOTHING);
  }
}
