/**
 One voice turn of the gateway: the sink that writes it out (internal/gateway/handler.go:401-493) and the pipeline
 that produces it (internal/session/pipeline.go:67-252), with providers that may fail at any point.
 */
module Pipeline {
  import opened Common
  import opened Bytes
  import opened AudioFormats
  import opened Text
  import opened StreamTracker
  import opened Outbound
  import opened Streams

  // ---- The sink ----

  /** gatewaySink: a connection and the tracker of the outbound stream. */
  class GatewaySink {
    const conn: Outbox
    const outbound: Tracker

    constructor (conn: Outbox)
      ensures this.conn == conn && fresh(outbound) && outbound.Value() == IDLE
    {
      this.conn := conn;
      outbound := new Tracker();
    }

    /** Nothing is written unless the tracker can start the stream. */
    method OnTTSStart(start: AudioStart) returns (ok: bool)
      modifies conn, outbound
      ensures var tracked := old(outbound.Value());
              if CanStart(tracked, start) then
                && outbound.Value() == Tracked(Some(start), 0)
                && Posted(old(conn.sent), old(conn.broken), conn.sent, conn.broken, TtsStart(start), ok)
              else !ok && outbound.Value() == tracked && conn.sent == old(conn.sent) && conn.broken == old(conn.broken)
    {
      ok := outbound.Start(start);
      if !ok {
        return;
      }
      ok := conn.Write(TtsStart(start));
    }

    /** A frame is counted before it is written, and written only while a stream is tracked. */
    method OnTTSChunk(data: seq<byte>) returns (ok: bool)
      modifies conn, outbound
      ensures var tracked := old(outbound.Value());
              if tracked.active.Some? then
                && outbound.Value() == Tracked(tracked.active, tracked.frameCount + 1)
                && Posted(old(conn.sent), old(conn.broken), conn.sent, conn.broken, TtsChunk(data), ok)
              else !ok && outbound.Value() == tracked && conn.sent == old(conn.sent) && conn.broken == old(conn.broken)
    {
      ok := outbound.AddFrame();
      if !ok {
        return;
      }
      ok := conn.Write(TtsChunk(data));
    }

    /** The stop names the tracked stream and carries the number of frames counted since its start. */
    method OnTTSStop(streamId: string) returns (ok: bool)
      modifies conn, outbound
      ensures var tracked := old(outbound.Value());
              if tracked.active.Some? && tracked.active.value.streamId == streamId then
                && outbound.Value() == IDLE
                && Posted(old(conn.sent), old(conn.broken), conn.sent, conn.broken,
                          TtsStop(AudioStop(streamId, tracked.frameCount)), ok)
              else !ok && outbound.Value() == tracked && conn.sent == old(conn.sent) && conn.broken == old(conn.broken)
    {
      if outbound.active.None? {
        return false;
      }
      var payload := AudioStop(streamId, outbound.frameCount);
      ok := outbound.Stop(payload);
      if !ok {
        return;
      }
      ok := conn.Write(TtsStop(payload));
    }
  }

  // ---- Providers ----

  /**
   What a streaming provider does: it calls back with each item, and after a refused item it either goes on or
   stops with the error; having come to the end it succeeds or fails.
   */
  datatype Script<T> = Script(items: seq<T>, toleratesRefusals: seq<bool>, succeeds: bool) {
    ghost predicate Valid() {
      |toleratesRefusals| == |items|
    }
  }

  datatype Request = Request(codec: string, sampleRateHz: int, channels: int)

  // ---- Identifiers ----

  function Decimal(n: nat): (s: string)
    ensures s != ""
  {
    var digit := ['0' + (n % 10) as char];
    if n < 10 then digit else Decimal(n / 10) + digit
  }

  function Zeros(n: nat): string {
    if n == 0 then "" else "0" + Zeros(n - 1)
  }

  /** Sprintf("%s-%06d") */
  function IdText(prefix: string, n: nat): (id: string)
    ensures id != ""
  {
    prefix + "-" + Zeros(Max(0, 6 - |Decimal(n)|)) + Decimal(n)
  }

  /** The number that digits spell. */
  function Spelled(digits: string): int {
    if digits == "" then 0 else 10 * Spelled(digits[..|digits| - 1]) + digits[|digits| - 1] as int - '0' as int
  }

  ghost predicate AllDigits(s: string) {
    forall i :: 0 <= i < |s| ==> '0' <= s[i] <= '9'
  }

  lemma {:induction false} DecimalSpells(n: nat)
    ensures Spelled(Decimal(n)) == n && AllDigits(Decimal(n))
  {
    var digit := ['0' + (n % 10) as char];
    if n < 10 {
      assert digit[..0] == [];
    } else {
      DecimalSpells(n / 10);
      assert Decimal(n)[..|Decimal(n)| - 1] == Decimal(n / 10);
    }
  }

  lemma {:induction false} ZerosSpellNothing(n: nat, digits: string)
    ensures Spelled(Zeros(n) + digits) == Spelled(digits) && |Zeros(n)| == n && AllDigits(Zeros(n))
    decreases n, |digits|
  {
    if digits != "" {
      var all, last := Zeros(n) + digits, |digits| - 1;
      ZerosSpellNothing(n, digits[..last]);
      assert all[..|all| - 1] == Zeros(n) + digits[..last];
    } else if n > 0 {
      ZerosSpellNothing(n - 1, "");
      ZerosSpellNothing(n - 1, "0");
      assert Zeros(n) + "" == Zeros(n) && Zeros(n - 1) + "" == Zeros(n - 1);
      SameZeros(n - 1);
      assert "0"[..0] == "";
    }
  }

  lemma {:induction false} SameZeros(n: nat)
    ensures "0" + Zeros(n) == Zeros(n) + "0"
  {
    if n > 0 {
      SameZeros(n - 1);
      assert "0" + ("0" + Zeros(n - 1)) == "0" + (Zeros(n - 1) + "0");
    }
  }

  /** A name is its prefix, a dash, and at least six digits that spell its number; so different numbers differ. */
  lemma NamesSpellTheirNumbers(prefix: string, n: nat)
    ensures var id := IdText(prefix, n);
            && |id| >= |prefix| + 7 && id[..|prefix| + 1] == prefix + "-"
            && Spelled(id[|prefix| + 1..]) == n && AllDigits(id[|prefix| + 1..])
  {
    var zeros, digits := Zeros(Max(0, 6 - |Decimal(n)|)), Decimal(n);
    DecimalSpells(n);
    ZerosSpellNothing(Max(0, 6 - |digits|), digits);
    NameParts(prefix, zeros, digits);
  }

  lemma NameParts(prefix: string, zeros: string, digits: string)
    ensures var id := prefix + "-" + zeros + digits;
            id[..|prefix| + 1] == prefix + "-" && id[|prefix| + 1..] == zeros + digits
    ensures AllDigits(zeros) && AllDigits(digits) ==> AllDigits(zeros + digits)
  {
  }

  lemma NamesDiffer(prefix: string, n: nat, m: nat)
    requires n != m
    ensures IdText(prefix, n) != IdText(prefix, m)
  {
    NamesSpellTheirNumbers(prefix, n);
    NamesSpellTheirNumbers(prefix, m);
  }

  // ---- What a turn says ----

  /** One turn: the transcript or a failed transcription, the two streaming providers, and the format asked for. */
  datatype Turn = Turn(asr: Option<string>, llm: Script<string>, tts: Script<seq<byte>>, request: Request) {
    ghost predicate Valid() {
      llm.Valid() && tts.Valid()
    }

    predicate Transcribes() {
      asr.Some? && asr.value != ""
    }

    /** The language model comes to its end, with no delta refused for good. */
    ghost predicate Answers()
      requires Valid()
    {
      Transcribes() && Talks(llm)
    }

    /** Then tts.start is written, if the format can be announced. */
    ghost predicate Speaks()
      requires Valid()
    {
      Answers() && FormatIsValid(request)
    }

    ghost predicate Succeeds()
      requires Valid()
    {
      Speaks() && tts.succeeds
    }

    /** The turn begins a stream and does not end it. */
    ghost predicate LeavesOpen()
      requires Valid()
    {
      Speaks() && !tts.succeeds
    }
  }

  predicate FormatIsValid(request: Request) {
    (request.codec == "" || request.codec == PCM_S16LE) && request.sampleRateHz > 0 && request.channels > 0
  }

  /** On a connection that holds only an empty delta is refused; the script may go on all the same. */
  predicate PassesOver(llm: Script<string>, i: nat)
    requires i < |llm.items| == |llm.toleratesRefusals|
  {
    llm.items[i] != "" || llm.toleratesRefusals[i]
  }

  /** The first position from i on at which a delta is refused for good. */
  ghost function FirstRefusal(llm: Script<string>, i: nat): (at: nat)
    requires llm.Valid() && i <= |llm.items|
    ensures i <= at <= |llm.items|
    decreases |llm.items| - i
  {
    if i == |llm.items| || !PassesOver(llm, i) then i else FirstRefusal(llm, i + 1)
  }

  ghost predicate Talks(llm: Script<string>)
    requires llm.Valid()
  {
    llm.succeeds && FirstRefusal(llm, 0) == |llm.items|
  }

  /** The deltas that are not empty. */
  function DeltaEvents(texts: seq<string>): seq<Event> {
    if texts == [] then [] else DeltaEvents(texts[..|texts| - 1]) + Accepted(LlmDelta(texts[|texts| - 1]))
  }

  function ChunkEvents(chunks: seq<seq<byte>>): seq<Event> {
    if chunks == [] then [] else ChunkEvents(chunks[..|chunks| - 1]) + [TtsChunk(chunks[|chunks| - 1])]
  }

  /** The stream of a reply: the request's format, with the default codec if it names none. */
  function StartOf(streamId: string, request: Request): AudioStart {
    AudioStart(streamId, if request.codec == "" then PCM_S16LE else request.codec, request.sampleRateHz, request.channels)
  }

  /** The stream is announced as it was asked for, as 16-bit PCM if no codec was named. */
  lemma StartIsAsAsked(streamId: string, request: Request)
    requires FormatIsValid(request)
    ensures StartOf(streamId, request) == AudioStart(streamId, "pcm_s16le", request.sampleRateHz, request.channels)
    ensures StartOf(streamId, request).Valid() <==> streamId != ""
  {
  }

  const ACTION_KIND := "noop"
  const DEFAULT_REPLY := "Mock agent reply."

  /** What is spoken: the reply as far as it is not blank, and otherwise a stock phrase. */
  function ReplyText(reply: string): (text: string)
    ensures text != ""
  {
    if Trim(reply) == "" then DEFAULT_REPLY else Trim(reply)
  }

  function Ending(streamId: string, frames: nat, actionId: string): seq<Event> {
    [TtsStop(AudioStop(streamId, frames))] + [ActionExecute(actionId, ACTION_KIND)]
  }

  /** The audio of a stream, and its end if the synthesis succeeds. */
  function SpeechLog(tts: Script<seq<byte>>, streamId: string, actionId: string): seq<Event> {
    ChunkEvents(tts.items) + if tts.succeeds then Ending(streamId, |tts.items|, actionId) else []
  }

  /** From tts.start to the action, when n names have been given out. */
  function VoiceLog(tts: Script<seq<byte>>, request: Request, n: nat): seq<Event> {
    if !FormatIsValid(request) then []
    else
      var id := IdText("tts", n + 1);
      [TtsStart(StartOf(id, request))] + SpeechLog(tts, id, IdText("act", n + 2))
  }

  /** From the first delta to the action. */
  ghost function ReplyLog(turn: Turn, n: nat): seq<Event>
    requires turn.Valid()
  {
    DeltaEvents(turn.llm.items[..FirstRefusal(turn.llm, 0)])
    + if Talks(turn.llm) then
        [LlmDone(ReplyText(Flatten(turn.llm.items)))] + VoiceLog(turn.tts, turn.request, n)
      else []
  }

  /** Everything a turn writes on a connection that holds. */
  ghost function TurnLog(turn: Turn, n: nat): seq<Event>
    requires turn.Valid()
  {
    (if turn.asr.Some? then Accepted(AsrFinal(turn.asr.value)) else [])
    + if turn.Transcribes() then ReplyLog(turn, n) else []
  }

  /** The names a turn uses up: one for its stream, one for its action. */
  ghost function NamesUsed(turn: Turn): nat
    requires turn.Valid()
  {
    if turn.Succeeds() then 2 else if turn.Answers() then 1 else 0
  }

  lemma OneMoreDelta(texts: seq<string>, i: nat)
    requires i < |texts|
    ensures Flatten(texts[..i + 1]) == Flatten(texts[..i]) + texts[i]
    ensures DeltaEvents(texts[..i + 1]) == DeltaEvents(texts[..i]) + Accepted(LlmDelta(texts[i]))
  {
    FlattenSnoc(texts[..i], texts[i]);
    assert texts[..i + 1] == texts[..i] + [texts[i]];
    assert texts[..i + 1][..i] == texts[..i];
  }

  lemma OneMoreFrame(chunks: seq<seq<byte>>, i: nat)
    requires i < |chunks|
    ensures ChunkEvents(chunks[..i + 1]) == ChunkEvents(chunks[..i]) + [TtsChunk(chunks[i])]
  {
    assert chunks[..i + 1][..i] == chunks[..i];
  }

  lemma {:induction false} NoRefusalBefore(llm: Script<string>, i: nat, j: nat)
    requires llm.Valid() && i <= j <= |llm.items|
    requires forall k :: i <= k < j ==> PassesOver(llm, k)
    ensures FirstRefusal(llm, i) == FirstRefusal(llm, j)
    decreases j - i
  {
    if i < j {
      NoRefusalBefore(llm, i + 1, j);
    }
  }

  /** The deltas of a longer list begin with those of a shorter one. */
  lemma {:induction false} DeltaEventsGrow(texts: seq<string>, i: nat, j: nat) returns (more: seq<Event>)
    requires i <= j <= |texts|
    ensures DeltaEvents(texts[..j]) == DeltaEvents(texts[..i]) + more
  {
    if i == j {
      more := [];
    } else {
      more := DeltaEventsGrow(texts, i, j - 1);
      OneMoreDelta(texts, j - 1);
      more := more + Accepted(LlmDelta(texts[j - 1]));
    }
  }

  lemma {:induction false} ChunkEventsGrow(chunks: seq<seq<byte>>, i: nat) returns (more: seq<Event>)
    requires i <= |chunks|
    ensures ChunkEvents(chunks) == ChunkEvents(chunks[..i]) + more
    decreases |chunks| - i
  {
    if i == |chunks| {
      assert chunks[..i] == chunks;
      more := [];
    } else {
      more := ChunkEventsGrow(chunks, i + 1);
      OneMoreFrame(chunks, i);
      more := [TtsChunk(chunks[i])] + more;
    }
  }

  // ---- The pipeline ----

  /** The pipeline's own state is its counter. */
  class Pipeline {
    var idCounter: nat

    constructor ()
      ensures idCounter == 0
    {
      idCounter := 0;
    }

    method NextID(prefix: string) returns (id: string)
      modifies this
      ensures idCounter == old(idCounter) + 1 && id == IdText(prefix, idCounter)
    {
      idCounter := idCounter + 1;
      id := IdText(prefix, idCounter);
    }

    /**
     Run, with a new sink on a connection with any past. The turn writes exactly TurnLog, or as much of it as goes
     through before the connection breaks; on a connection that holds it succeeds exactly when its providers do and
     nothing of theirs is refused for good.
     */
    method Run(turn: Turn, sink: GatewaySink) returns (ok: bool)
      requires turn.Valid() && sink.outbound.Value() == IDLE
      modifies this, sink.conn, sink.outbound
      ensures Wrote(old(sink.conn.sent), old(sink.conn.broken), sink.conn.sent, sink.conn.broken,
                    TurnLog(turn, old(idCounter)))
      ensures ok ==> !sink.conn.broken
      ensures !sink.conn.broken ==> ok == turn.Succeeds() && idCounter == old(idCounter) + NamesUsed(turn)
    {
      ghost var s0, b0, n := sink.conn.sent, sink.conn.broken, idCounter;
      if turn.asr.None? {
        WroteNothing(s0, b0);
        WroteFirst(s0, b0, s0, b0, [], ReplyLog(turn, n), false);
        return false;
      }
      var asrFinal := AsrFinal(turn.asr.value);
      ok := sink.conn.Write(asrFinal);
      ghost var s1, b1 := sink.conn.sent, sink.conn.broken;
      PostedIsWrote(s0, b0, s1, b1, asrFinal, ok);
      if !ok {
        WroteFirst(s0, b0, s1, b1, Accepted(asrFinal), ReplyLog(turn, n), turn.Transcribes());
        return;
      }
      ok := Reply(turn, sink);
      WroteBoth(s0, b0, s1, b1, sink.conn.sent, sink.conn.broken, Accepted(asrFinal), ReplyLog(turn, n),
                turn.Transcribes());
    }

    /** From the first delta to the action. */
    method Reply(turn: Turn, sink: GatewaySink) returns (ok: bool)
      requires turn.Valid() && turn.Transcribes() && sink.outbound.Value() == IDLE
      modifies this, sink.conn, sink.outbound
      ensures Wrote(old(sink.conn.sent), old(sink.conn.broken), sink.conn.sent, sink.conn.broken,
                    ReplyLog(turn, old(idCounter)))
      ensures ok ==> !sink.conn.broken
      ensures !sink.conn.broken ==> ok == turn.Succeeds() && idCounter == old(idCounter) + NamesUsed(turn)
    {
      ghost var s0, b0, n := sink.conn.sent, sink.conn.broken, idCounter;
      ghost var deltas := DeltaEvents(turn.llm.items[..FirstRefusal(turn.llm, 0)]);
      ghost var rest := [LlmDone(ReplyText(Flatten(turn.llm.items)))] + VoiceLog(turn.tts, turn.request, n);
      var reply;
      reply, ok := Converse(turn.llm, sink);
      ghost var s1, b1 := sink.conn.sent, sink.conn.broken;
      if !ok {
        WroteFirst(s0, b0, s1, b1, deltas, rest, Talks(turn.llm));
        return;
      }
      ok := Answer(turn, ReplyText(reply), sink);
      WroteBoth(s0, b0, s1, b1, sink.conn.sent, sink.conn.broken, deltas, rest, Talks(turn.llm));
    }

    /** From llm.done to the action. */
    method Answer(turn: Turn, replyText: string, sink: GatewaySink) returns (ok: bool)
      requires turn.Valid() && turn.Answers() && replyText != "" && sink.outbound.Value() == IDLE
      modifies this, sink.conn, sink.outbound
      ensures Wrote(old(sink.conn.sent), old(sink.conn.broken), sink.conn.sent, sink.conn.broken,
                    [LlmDone(replyText)] + VoiceLog(turn.tts, turn.request, old(idCounter)))
      ensures ok ==> !sink.conn.broken
      ensures !sink.conn.broken ==> ok == turn.Succeeds() && idCounter == old(idCounter) + NamesUsed(turn)
    {
      ghost var s0, b0, n := sink.conn.sent, sink.conn.broken, idCounter;
      var done := LlmDone(replyText);
      ok := sink.conn.Write(done);
      ghost var s1, b1 := sink.conn.sent, sink.conn.broken;
      PostedIsWrote(s0, b0, s1, b1, done, ok);
      if !ok {
        WroteFirst(s0, b0, s1, b1, [done], VoiceLog(turn.tts, turn.request, n), true);
        return;
      }
      ok := Voice(turn.tts, turn.request, sink);
      WroteBoth(s0, b0, s1, b1, sink.conn.sent, sink.conn.broken, [done], VoiceLog(turn.tts, turn.request, n), true);
    }

    /** From tts.start to the action. */
    method Voice(tts: Script<seq<byte>>, request: Request, sink: GatewaySink) returns (ok: bool)
      requires tts.Valid() && sink.outbound.Value() == IDLE
      modifies this, sink.conn, sink.outbound
      ensures Wrote(old(sink.conn.sent), old(sink.conn.broken), sink.conn.sent, sink.conn.broken,
                    VoiceLog(tts, request, old(idCounter)))
      ensures ok ==> !sink.conn.broken
      ensures !sink.conn.broken ==> ok == (FormatIsValid(request) && tts.succeeds)
      ensures !sink.conn.broken ==> idCounter == old(idCounter) + if ok then 2 else 1
    {
      ghost var s0, b0, n := sink.conn.sent, sink.conn.broken, idCounter;
      var streamId := NextID("tts");
      var start := StartOf(streamId, request);
      ok := sink.OnTTSStart(start);
      ghost var s1, b1 := sink.conn.sent, sink.conn.broken;
      if !FormatIsValid(request) {
        WroteNothing(s0, b0);
        return;
      }
      ghost var rest := SpeechLog(tts, streamId, IdText("act", n + 2));
      PostedIsWrote(s0, b0, s1, b1, TtsStart(start), ok);
      if !ok {
        WroteFirst(s0, b0, s1, b1, [TtsStart(start)], rest, true);
        return;
      }
      ok := Speech(tts, streamId, sink);
      WroteBoth(s0, b0, s1, b1, sink.conn.sent, sink.conn.broken, [TtsStart(start)], rest, true);
    }

    /** From the first frame to the action. */
    method Speech(tts: Script<seq<byte>>, streamId: string, sink: GatewaySink) returns (ok: bool)
      requires tts.Valid() && streamId != "" && sink.outbound.active.Some? && sink.outbound.frameCount == 0
      requires sink.outbound.active.value.streamId == streamId
      modifies this, sink.conn, sink.outbound
      ensures Wrote(old(sink.conn.sent), old(sink.conn.broken), sink.conn.sent, sink.conn.broken,
                    SpeechLog(tts, streamId, IdText("act", old(idCounter) + 1)))
      ensures ok ==> !sink.conn.broken
      ensures !sink.conn.broken ==> ok == tts.succeeds && idCounter == old(idCounter) + if ok then 1 else 0
    {
      ghost var s0, b0, n := sink.conn.sent, sink.conn.broken, idCounter;
      ghost var ending := Ending(streamId, |tts.items|, IdText("act", n + 1));
      ok := Speak(tts, sink);
      ghost var s1, b1 := sink.conn.sent, sink.conn.broken;
      if !ok {
        WroteFirst(s0, b0, s1, b1, ChunkEvents(tts.items), ending, tts.succeeds);
        return;
      }
      ok := Finish(streamId, sink);
      WroteBoth(s0, b0, s1, b1, sink.conn.sent, sink.conn.broken, ChunkEvents(tts.items), ending, tts.succeeds);
    }

    /** tts.stop and the action. */
    method Finish(streamId: string, sink: GatewaySink) returns (ok: bool)
      requires streamId != "" && sink.outbound.active.Some? && sink.outbound.active.value.streamId == streamId
      modifies this, sink.conn, sink.outbound
      ensures Wrote(old(sink.conn.sent), old(sink.conn.broken), sink.conn.sent, sink.conn.broken,
                    Ending(streamId, old(sink.outbound.frameCount), IdText("act", old(idCounter) + 1)))
      ensures ok == !sink.conn.broken
      ensures !sink.conn.broken ==> idCounter == old(idCounter) + 1
    {
      ghost var s0, b0, n := sink.conn.sent, sink.conn.broken, idCounter;
      ghost var stop := TtsStop(AudioStop(streamId, sink.outbound.frameCount));
      ghost var action := ActionExecute(IdText("act", n + 1), ACTION_KIND);
      ok := sink.OnTTSStop(streamId);
      ghost var s1, b1 := sink.conn.sent, sink.conn.broken;
      PostedIsWrote(s0, b0, s1, b1, stop, ok);
      if !ok {
        WroteFirst(s0, b0, s1, b1, [stop], [action], true);
        return;
      }
      var actionId := NextID("act");
      ok := sink.conn.Write(ActionExecute(actionId, ACTION_KIND));
      PostedIsWrote(s1, b1, sink.conn.sent, sink.conn.broken, action, ok);
      WroteBoth(s0, b0, s1, b1, sink.conn.sent, sink.conn.broken, [stop], [action], true);
    }

    /** The call of ChatStream. */
    method Converse(llm: Script<string>, sink: GatewaySink) returns (reply: string, ok: bool)
      requires llm.Valid()
      modifies sink.conn
      ensures Wrote(old(sink.conn.sent), old(sink.conn.broken), sink.conn.sent, sink.conn.broken,
                    DeltaEvents(llm.items[..FirstRefusal(llm, 0)]))
      ensures ok ==> Talks(llm) && reply == Flatten(llm.items)
      ensures !sink.conn.broken ==> ok == Talks(llm)
    {
      var heard, stopped;
      reply, heard, stopped := Listen(llm, sink);
      if stopped {
        RefusedForGood(llm, heard - 1, old(sink.conn.sent), old(sink.conn.broken), sink.conn.sent, sink.conn.broken);
        return reply, false;
      }
      NoRefusalBefore(llm, 0, |llm.items|);
      assert llm.items[..|llm.items|] == llm.items;
      ok := llm.succeeds;
    }

    /** Its callback, as often as the script calls it; the script stops when a refusal is not tolerated. */
    method Listen(llm: Script<string>, sink: GatewaySink) returns (reply: string, heard: nat, stopped: bool)
      requires llm.Valid()
      modifies sink.conn
      ensures heard <= |llm.items| && reply == Flatten(llm.items[..heard])
      ensures Wrote(old(sink.conn.sent), old(sink.conn.broken), sink.conn.sent, sink.conn.broken,
                    DeltaEvents(llm.items[..heard]))
      ensures if stopped then
                && heard > 0 && !llm.toleratesRefusals[heard - 1] && (sink.conn.broken || llm.items[heard - 1] == "")
                && forall k :: 0 <= k < heard - 1 ==> PassesOver(llm, k)
              else heard == |llm.items| && forall k :: 0 <= k < heard ==> PassesOver(llm, k)
    {
      ghost var s0, b0 := sink.conn.sent, sink.conn.broken;
      ghost var said: seq<Event> := [];
      reply, heard, stopped := "", 0, false;
      WroteNothing(s0, b0);
      while heard < |llm.items|
        invariant heard <= |llm.items| && reply == Flatten(llm.items[..heard])
        invariant said == DeltaEvents(llm.items[..heard])
        invariant Wrote(s0, b0, sink.conn.sent, sink.conn.broken, said)
        invariant forall k :: 0 <= k < heard ==> PassesOver(llm, k)
      {
        OneMoreDelta(llm.items, heard);
        reply := reply + llm.items[heard];
        var ok := OnDelta(llm.items[heard], sink, s0, b0, said);
        said := said + Accepted(LlmDelta(llm.items[heard]));
        heard := heard + 1;
        if !ok && !llm.toleratesRefusals[heard - 1] {
          stopped := true;
          return;
        }
      }
    }

    /** What one callback writes, after what was said before. */
    method OnDelta(delta: string, sink: GatewaySink, ghost s0: seq<Event>, ghost b0: bool, ghost said: seq<Event>)
      returns (ok: bool)
      requires Wrote(s0, b0, sink.conn.sent, sink.conn.broken, said)
      modifies sink.conn
      ensures Wrote(s0, b0, sink.conn.sent, sink.conn.broken, said + Accepted(LlmDelta(delta)))
      ensures if ok then delta != "" else sink.conn.broken || delta == ""
    {
      ghost var s1, b1 := sink.conn.sent, sink.conn.broken;
      ok := sink.conn.Write(LlmDelta(delta));
      PostedIsWrote(s1, b1, sink.conn.sent, sink.conn.broken, LlmDelta(delta), ok);
      WroteBoth(s0, b0, s1, b1, sink.conn.sent, sink.conn.broken, said, Accepted(LlmDelta(delta)), true);
    }

    /** The call of SynthesizeStream with its callback. */
    method Speak(tts: Script<seq<byte>>, sink: GatewaySink) returns (ok: bool)
      requires tts.Valid() && sink.outbound.active.Some? && sink.outbound.frameCount == 0
      modifies sink.conn, sink.outbound
      ensures sink.outbound.active == old(sink.outbound.active)
      ensures Wrote(old(sink.conn.sent), old(sink.conn.broken), sink.conn.sent, sink.conn.broken, ChunkEvents(tts.items))
      ensures ok ==> tts.succeeds && sink.outbound.frameCount == |tts.items|
      ensures !sink.conn.broken ==> ok == tts.succeeds
    {
      ghost var s0, b0 := sink.conn.sent, sink.conn.broken;
      WroteNothing(s0, b0);
      for i := 0 to |tts.items|
        invariant sink.outbound.Value() == Tracked(old(sink.outbound.active), i)
        invariant Wrote(s0, b0, sink.conn.sent, sink.conn.broken, ChunkEvents(tts.items[..i]))
      {
        ghost var s1, b1 := sink.conn.sent, sink.conn.broken;
        ghost var chunk := TtsChunk(tts.items[i]);
        ok := sink.OnTTSChunk(tts.items[i]);
        OneMoreFrame(tts.items, i);
        PostedIsWrote(s1, b1, sink.conn.sent, sink.conn.broken, chunk, ok);
        WroteBoth(s0, b0, s1, b1, sink.conn.sent, sink.conn.broken, ChunkEvents(tts.items[..i]), [chunk], true);
        if !ok && !tts.toleratesRefusals[i] {
          ghost var more := ChunkEventsGrow(tts.items, i + 1);
          WroteFirst(s0, b0, sink.conn.sent, sink.conn.broken, ChunkEvents(tts.items[..i + 1]), more, true);
          return;
        }
      }
      assert tts.items[..|tts.items|] == tts.items;
      ok := tts.succeeds;
    }
  }

  /** A script that stops at its i-th delta: that delta cannot be sent, or the connection has broken. */
  lemma RefusedForGood(llm: Script<string>, i: nat, s0: seq<Event>, b0: bool, s1: seq<Event>, b1: bool)
    requires llm.Valid() && i < |llm.items| && !llm.toleratesRefusals[i]
    requires forall k :: 0 <= k < i ==> PassesOver(llm, k)
    requires Wrote(s0, b0, s1, b1, DeltaEvents(llm.items[..i + 1])) && (b1 || llm.items[i] == "")
    ensures Wrote(s0, b0, s1, b1, DeltaEvents(llm.items[..FirstRefusal(llm, 0)]))
    ensures !b1 ==> !Talks(llm)
  {
    NoRefusalBefore(llm, 0, i);
    OneMoreDelta(llm.items, i);
    if PassesOver(llm, i) {
      var more := DeltaEventsGrow(llm.items, i + 1, FirstRefusal(llm, i + 1));
      WroteFirst(s0, b0, s1, b1, DeltaEvents(llm.items[..i + 1]), more, true);
    } else {
      assert DeltaEvents(llm.items[..i]) + [] == DeltaEvents(llm.items[..i]);
    }
  }

  // ---- The language of a turn ----

  /** How far a turn has come; Speaking remembers the stream that was started. */
  datatype Phase = Listening | Heard | Replied | Speaking(streamId: string) | Spoken | Finished | Astray

  function Next(p: Phase, e: Event): Phase {
    match e
    case AsrFinal(_) => if p.Listening? then Heard else Astray
    case LlmDelta(_) => if p.Heard? then Heard else Astray
    case LlmDone(_) => if p.Heard? then Replied else Astray
    case TtsStart(start) => if p.Replied? then Speaking(start.streamId) else Astray
    case TtsChunk(_) => if p.Speaking? then p else Astray
    case TtsStop(stop) => if p.Speaking? && stop.streamId == p.streamId then Spoken else Astray
    case ActionExecute(_, _) => if p.Spoken? then Finished else Astray
    case ResponseDone(_) => Astray
    case ErrorEvent(_) => Astray
  }

  function PhaseFrom(p: Phase, events: seq<Event>): Phase {
    if events == [] then p else Next(PhaseFrom(p, events[..|events| - 1]), events[|events| - 1])
  }

  function PhaseOf(events: seq<Event>): Phase {
    PhaseFrom(Listening, events)
  }

  lemma {:induction false} PhaseFromAppend(p: Phase, a: seq<Event>, b: seq<Event>)
    ensures PhaseFrom(p, a + b) == PhaseFrom(PhaseFrom(p, a), b)
  {
    if b == [] {
      assert a + b == a;
    } else {
      assert (a + b)[..|a + b| - 1] == a + b[..|b| - 1];
      PhaseFromAppend(p, a, b[..|b| - 1]);
    }
  }

  lemma PhaseOfOne(p: Phase, e: Event)
    ensures PhaseFrom(p, [e]) == Next(p, e)
  {
    assert [e][..0] == [];
  }

  ghost predicate AllDeltas(events: seq<Event>) {
    forall e :: e in events ==> e.LlmDelta?
  }

  /** Deltas and audio frames leave the phase as it is. */
  lemma {:induction false} RunsKeepThePhase(p: Phase, more: seq<Event>)
    requires (p.Heard? && AllDeltas(more)) || (p.Speaking? && AllChunks(more))
    ensures PhaseFrom(p, more) == p
  {
    if more != [] {
      assert more[|more| - 1] in more;
      RunsKeepThePhase(p, more[..|more| - 1]);
    }
  }

  lemma {:induction false} DeltaEventsAreDeltas(texts: seq<string>)
    ensures AllDeltas(DeltaEvents(texts))
  {
    if texts != [] {
      DeltaEventsAreDeltas(texts[..|texts| - 1]);
    }
  }

  lemma {:induction false} ChunkEventsAreChunks(chunks: seq<seq<byte>>)
    ensures AllChunks(ChunkEvents(chunks))
  {
    if chunks != [] {
      ChunkEventsAreChunks(chunks[..|chunks| - 1]);
    }
  }

  lemma {:induction false} AstrayForEver(events: seq<Event>)
    ensures PhaseFrom(Astray, events).Astray?
  {
    if events != [] {
      AstrayForEver(events[..|events| - 1]);
    }
  }

  lemma SpeechPhase(tts: Script<seq<byte>>, streamId: string, actionId: string)
    ensures PhaseFrom(Speaking(streamId), SpeechLog(tts, streamId, actionId))
            == if tts.succeeds then Finished else Speaking(streamId)
  {
    var chunks, stop, action := ChunkEvents(tts.items), TtsStop(AudioStop(streamId, |tts.items|)),
                                ActionExecute(actionId, ACTION_KIND);
    ChunkEventsAreChunks(tts.items);
    RunsKeepThePhase(Speaking(streamId), chunks);
    if tts.succeeds {
      PhaseFromAppend(Speaking(streamId), chunks, Ending(streamId, |tts.items|, actionId));
      PhaseFromAppend(Speaking(streamId), [stop], [action]);
      PhaseOfOne(Speaking(streamId), stop);
      PhaseOfOne(Spoken, action);
    } else {
      assert chunks + [] == chunks;
    }
  }

  lemma VoicePhase(tts: Script<seq<byte>>, request: Request, n: nat)
    ensures PhaseFrom(Replied, VoiceLog(tts, request, n))
            == if !FormatIsValid(request) then Replied
               else if tts.succeeds then Finished else Speaking(IdText("tts", n + 1))
  {
    if FormatIsValid(request) {
      var id := IdText("tts", n + 1);
      PhaseFromAppend(Replied, [TtsStart(StartOf(id, request))], SpeechLog(tts, id, IdText("act", n + 2)));
      PhaseOfOne(Replied, TtsStart(StartOf(id, request)));
      SpeechPhase(tts, id, IdText("act", n + 2));
    }
  }

  lemma ReplyPhase(turn: Turn, n: nat)
    requires turn.Valid()
    ensures PhaseFrom(Heard, ReplyLog(turn, n))
            == if Talks(turn.llm) then PhaseFrom(Replied, VoiceLog(turn.tts, turn.request, n)) else Heard
  {
    var deltas := DeltaEvents(turn.llm.items[..FirstRefusal(turn.llm, 0)]);
    DeltaEventsAreDeltas(turn.llm.items[..FirstRefusal(turn.llm, 0)]);
    RunsKeepThePhase(Heard, deltas);
    if Talks(turn.llm) {
      var done := [LlmDone(ReplyText(Flatten(turn.llm.items)))];
      PhaseFromAppend(Heard, deltas, done + VoiceLog(turn.tts, turn.request, n));
      PhaseFromAppend(Heard, done, VoiceLog(turn.tts, turn.request, n));
      PhaseOfOne(Heard, done[0]);
    } else {
      assert deltas + [] == deltas;
    }
  }

  /** How far each turn comes. */
  lemma TurnPhase(turn: Turn, n: nat)
    requires turn.Valid()
    ensures PhaseOf(TurnLog(turn, n))
            == if !turn.Transcribes() then Listening
               else if !turn.Answers() then Heard
               else if !turn.Speaks() then Replied
               else if turn.Succeeds() then Finished else Speaking(IdText("tts", n + 1))
  {
    if turn.Transcribes() {
      PhaseFromAppend(Listening, [AsrFinal(turn.asr.value)], ReplyLog(turn, n));
      PhaseOfOne(Listening, AsrFinal(turn.asr.value));
      ReplyPhase(turn, n);
      VoicePhase(turn.tts, turn.request, n);
    }
  }

  /** So however a turn fails, what it has written is the beginning of a turn's language. */
  lemma NoTurnGoesAstray(turn: Turn, n: nat, written: seq<Event>)
    requires turn.Valid() && written <= TurnLog(turn, n)
    ensures !PhaseOf(written).Astray?
  {
    var rest := TurnLog(turn, n)[|written|..];
    assert TurnLog(turn, n) == written + rest;
    TurnPhase(turn, n);
    PhaseFromAppend(Listening, written, rest);
    AstrayForEver(rest);
  }

  // ---- The events of a turn, in words ----

  /** The script stops at the first empty delta whose refusal it does not tolerate. */
  lemma {:induction false} RefusalInWords(llm: Script<string>, i: nat)
    requires llm.Valid() && i <= |llm.items|
    ensures var at := FirstRefusal(llm, i);
            && (forall k :: i <= k < at ==> llm.items[k] != "" || llm.toleratesRefusals[k])
            && (at < |llm.items| ==> llm.items[at] == "" && !llm.toleratesRefusals[at])
    decreases |llm.items| - i
  {
    if i < |llm.items| && PassesOver(llm, i) {
      RefusalInWords(llm, i + 1);
    }
  }

  /** So a turn succeeds exactly if each provider does, nothing is refused for good, and the format is a valid one. */
  lemma SucceedsInWords(turn: Turn)
    requires turn.Valid()
    ensures turn.Succeeds() <==>
              && turn.asr.Some? && turn.asr.value != "" && turn.llm.succeeds && turn.tts.succeeds
              && (forall k :: 0 <= k < |turn.llm.items| ==> turn.llm.items[k] != "" || turn.llm.toleratesRefusals[k])
              && turn.request.codec in {"", "pcm_s16le"} && turn.request.sampleRateHz > 0 && turn.request.channels > 0
  {
    RefusalInWords(turn.llm, 0);
  }

  /** The texts of some deltas, one after the other. */
  function TextOf(deltas: seq<Event>): string {
    if deltas == [] then ""
    else TextOf(deltas[..|deltas| - 1]) + if deltas[|deltas| - 1].LlmDelta? then deltas[|deltas| - 1].text else ""
  }

  /** The deltas written are those that are not empty: together they are the text of the reply. */
  lemma {:induction false} DeltasAreTheReply(texts: seq<string>)
    ensures TextOf(DeltaEvents(texts)) == Flatten(texts) && LlmDelta("") !in DeltaEvents(texts)
  {
    if texts != [] {
      var n := |texts| - 1;
      DeltasAreTheReply(texts[..n]);
      FlattenSnoc(texts[..n], texts[n]);
      assert texts == texts[..n] + [texts[n]];
      var before, more := DeltaEvents(texts[..n]), Accepted(LlmDelta(texts[n]));
      if more != [] {
        assert (before + more)[..|before|] == before;
      } else {
        assert before + more == before && Flatten(texts[..n]) + "" == Flatten(texts[..n]);
      }
    }
  }

  lemma {:induction false} FramesAreTheAudio(chunks: seq<seq<byte>>)
    ensures |ChunkEvents(chunks)| == |chunks|
    ensures forall k :: 0 <= k < |chunks| ==> ChunkEvents(chunks)[k] == TtsChunk(chunks[k])
  {
    if chunks != [] {
      FramesAreTheAudio(chunks[..|chunks| - 1]);
    }
  }

  /** What is said at the end of a reply: the trimmed reply, or the stock phrase for a blank one. */
  lemma ReplyInWords(reply: string)
    ensures ReplyText(reply) == if AllSpace(reply) then "Mock agent reply." else Trim(reply)
  {
    TrimBlank(reply);
  }

  /**
   A turn that succeeds writes the transcript, the deltas, the reply, the start of its stream as it was asked for, every
   frame of audio, the stop with their number, and the action.
   */
  lemma SuccessInWords(turn: Turn, n: nat)
    requires turn.Valid() && turn.Succeeds()
    ensures var id, audio := IdText("tts", n + 1), turn.tts.items;
            TurnLog(turn, n)
            == [AsrFinal(turn.asr.value)]
               + (DeltaEvents(turn.llm.items)
                  + ([LlmDone(ReplyText(Flatten(turn.llm.items)))]
                     + ([TtsStart(AudioStart(id, "pcm_s16le", turn.request.sampleRateHz, turn.request.channels))]
                        + (ChunkEvents(audio)
                           + ([TtsStop(AudioStop(id, |audio|))] + [ActionExecute(IdText("act", n + 2), "noop")])))))
  {
    var items := turn.llm.items;
    assert items[..|items|] == items;
    StartIsAsAsked(IdText("tts", n + 1), turn.request);
  }

  // ---- What the phases mean ----

  /** The events of a turn as a concatenation, spelled out for each phase it may stop in. */
  ghost predicate SpelledOut(events: seq<Event>, p: Phase, deltas: seq<Event>, chunks: seq<Event>) {
    && AllDeltas(deltas) && AllChunks(chunks)
    && match p
       case Listening => events == []
       case Heard => |events| >= 1 && events[0].AsrFinal? && events[1..] == deltas
       case Replied =>
         var d := |deltas|;
         && |events| == d + 2 && events[0].AsrFinal? && events[1..d + 1] == deltas && events[d + 1].LlmDone?
       case Speaking(id) =>
         var d := |deltas|;
         && |events| == d + 3 + |chunks| && events[0].AsrFinal? && events[1..d + 1] == deltas
         && events[d + 1].LlmDone? && events[d + 2].TtsStart? && events[d + 2].start.streamId == id
         && events[d + 3..] == chunks
       case Spoken =>
         var d, c := |deltas|, |chunks|;
         && |events| == d + c + 4 && events[0].AsrFinal? && events[1..d + 1] == deltas
         && events[d + 1].LlmDone? && events[d + 2].TtsStart? && events[d + 3..d + 3 + c] == chunks
         && events[d + c + 3].TtsStop? && events[d + c + 3].stop.streamId == events[d + 2].start.streamId
       case Finished =>
         var d, c := |deltas|, |chunks|;
         && |events| == d + c + 5 && events[0].AsrFinal? && events[1..d + 1] == deltas
         && events[d + 1].LlmDone? && events[d + 2].TtsStart? && events[d + 3..d + 3 + c] == chunks
         && events[d + c + 3].TtsStop? && events[d + c + 3].stop.streamId == events[d + 2].start.streamId
         && events[d + c + 4].ActionExecute?
       case Astray => true
  }

  /** One more event, when it keeps the turn from going astray, lengthens the spelling. */
  lemma SpellingGrows(before: seq<Event>, e: Event, deltas: seq<Event>, chunks: seq<Event>)
    returns (deltas': seq<Event>, chunks': seq<Event>)
    requires SpelledOut(before, PhaseOf(before), deltas, chunks) && !Next(PhaseOf(before), e).Astray?
    ensures SpelledOut(before + [e], Next(PhaseOf(before), e), deltas', chunks')
  {
    deltas', chunks' := deltas, chunks;
    var events := before + [e];
    if e.LlmDelta? {
      assert events[1..] == before[1..] + [e];
      deltas' := deltas + [e];
    } else if e.TtsChunk? {
      assert events[|deltas| + 3..] == before[|deltas| + 3..] + [e];
      chunks' := chunks + [e];
    } else if e.AsrFinal? {
      deltas', chunks' := [], [];
    } else if e.TtsStart? {
      chunks' := [];
    }
  }

  /** A turn that is not astray is a prefix of asr.final llm.delta* llm.done tts.start chunk* tts.stop action. */
  lemma {:induction false} PhaseSpellsOutTheTurn(events: seq<Event>) returns (deltas: seq<Event>, chunks: seq<Event>)
    ensures SpelledOut(events, PhaseOf(events), deltas, chunks)
  {
    deltas, chunks := [], [];
    if events != [] && !PhaseOf(events).Astray? {
      var n := |events| - 1;
      var d, c := PhaseSpellsOutTheTurn(events[..n]);
      deltas, chunks := SpellingGrows(events[..n], events[n], d, c);
      assert events[..n] + [events[n]] == events;
    }
  }
}
