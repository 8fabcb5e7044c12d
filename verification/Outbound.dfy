/**
 What the servers write: events and audio frames on one connection whose writes may fail, and the bracketing of
 audio by tts.start and tts.stop. internal/protocol/types.go:186-238, internal/gateway/handler.go:401-505.
 */
module Outbound {
  import opened Common
  import opened Bytes
  import opened StreamTracker

  datatype Event =
    | AsrFinal(text: string)
    | LlmDelta(text: string)
    | LlmDone(text: string)
    | TtsStart(start: AudioStart)
    | TtsChunk(data: seq<byte>)
    | TtsStop(stop: AudioStop)
    | ActionExecute(actionId: string, kind: string)
    | ResponseDone(status: string)
    | ErrorEvent(code: string)
  {
    /** validateTypedPayload; audio frames and the events the protocol package does not know are not checked. */
    predicate Valid() {
      match this
      case AsrFinal(text) => text != ""
      case LlmDelta(text) => text != ""
      case LlmDone(text) => text != ""
      case TtsStart(start) => start.Valid()
      case TtsChunk(_) => true
      case TtsStop(stop) => stop.Valid()
      case ActionExecute(actionId, kind) => actionId != "" && kind != ""
      case ResponseDone(_) => true
      case ErrorEvent(_) => true
    }
  }

  /** Validation refuses exactly the empty texts and names, the formats other than 16-bit PCM, and negative counts. */
  lemma RefusedInWords(e: Event)
    ensures !e.Valid() <==>
              match e
              case AsrFinal(text) => text == ""
              case LlmDelta(text) => text == ""
              case LlmDone(text) => text == ""
              case TtsStart(p) => p.streamId == "" || p.codec != "pcm_s16le" || p.sampleRateHz <= 0 || p.channels <= 0
              case TtsStop(p) => p.streamId == "" || p.lastSeq < 0
              case ActionExecute(actionId, kind) => actionId == "" || kind == ""
              case _ => false
  {
  }

  /** What a single write does to a connection: it is refused without a trace, goes through, or breaks it. */
  ghost predicate Posted(before: seq<Event>, wasBroken: bool, after: seq<Event>, isBroken: bool, e: Event, ok: bool) {
    && after == (if ok then before + [e] else before)
    && (ok ==> e.Valid() && !wasBroken)
    && isBroken == (wasBroken || (e.Valid() && !ok))
  }

  /**
   A connection with everything written to it. An event that does not pass validation is refused and leaves no trace;
   a write that the network refuses breaks the connection, since the buffered writer underneath keeps its first error
   and takes nothing more.
   */
  class Outbox {
    var sent: seq<Event>
    var broken: bool

    constructor ()
      ensures sent == [] && !broken
    {
      sent, broken := [], false;
    }

    /** writeEvent and WriteBinary. */
    method Write(e: Event) returns (ok: bool)
      modifies this
      ensures Posted(old(sent), old(broken), sent, broken, e, ok)
    {
      ok := *;
      ok := ok && e.Valid() && !broken;
      if ok {
        sent := sent + [e];
      } else if e.Valid() {
        broken := true;
      }
    }
  }

  // ---- What a stretch of writing amounts to ----

  /**
   A connection that took `before` has taken `after`: all that was to be said, or as much of it as went through
   before the connection broke, which is nothing if it was broken already.
   */
  ghost predicate Wrote(before: seq<Event>, wasBroken: bool, after: seq<Event>, isBroken: bool, expected: seq<Event>) {
    && before <= after <= before + expected
    && (wasBroken ==> isBroken && after == before)
    && (!isBroken ==> after == before + expected)
  }

  /** What one event adds, if the connection holds. */
  function Accepted(e: Event): seq<Event> {
    if e.Valid() then [e] else []
  }

  lemma PostedIsWrote(before: seq<Event>, wasBroken: bool, after: seq<Event>, isBroken: bool, e: Event, ok: bool)
    requires Posted(before, wasBroken, after, isBroken, e, ok)
    ensures Wrote(before, wasBroken, after, isBroken, Accepted(e))
    ensures !isBroken ==> ok == e.Valid()
  {
    assert before + [] == before;
  }

  lemma WroteNothing(before: seq<Event>, broken: bool)
    ensures Wrote(before, broken, before, broken, [])
  {
    assert before + [] == before;
  }

  /** A first part, and a second one if c holds; a broken connection takes neither the second nor anything else. */
  lemma WroteBoth(s0: seq<Event>, b0: bool, s1: seq<Event>, b1: bool, s2: seq<Event>, b2: bool,
                  first: seq<Event>, second: seq<Event>, c: bool)
    requires Wrote(s0, b0, s1, b1, first) && Wrote(s1, b1, s2, b2, second) && (b1 || c)
    ensures Wrote(s0, b0, s2, b2, first + if c then second else [])
  {
    assert s0 + (first + second) == s0 + first + second;
    assert s0 + (first + []) == s0 + first;
    assert s0 <= s2;
  }

  /** A first part only: c does not hold, or the connection has broken. */
  lemma WroteFirst(s0: seq<Event>, b0: bool, s1: seq<Event>, b1: bool, first: seq<Event>, second: seq<Event>, c: bool)
    requires Wrote(s0, b0, s1, b1, first) && (b1 || !c)
    ensures Wrote(s0, b0, s1, b1, first + if c then second else [])
  {
    assert s0 + (first + second) == s0 + first + second;
    assert s0 + (first + []) == s0 + first;
  }

  /** On a connection that was broken before, anything may be said to have been expected. */
  lemma WroteSame(s0: seq<Event>, b0: bool, s1: seq<Event>, b1: bool, log: seq<Event>, other: seq<Event>)
    requires Wrote(s0, b0, s1, b1, log) && (b0 || log == other)
    ensures Wrote(s0, b0, s1, b1, other)
  {
  }

  // ---- Bracketing ----

  /** Where a log stands: no stream begun or the last one closed, inside a stream after some frames, or broken. */
  datatype Bracket = Outside | Inside(streamId: string, frames: nat) | Broken

  /** A start may come while a stream is open, which is then given up; frames and stops belong to the last start. */
  function Scan(b: Bracket, e: Event): Bracket {
    if b.Broken? then Broken
    else
      match e
      case TtsStart(start) => Inside(start.streamId, 0)
      case TtsChunk(_) => if b.Inside? then Inside(b.streamId, b.frames + 1) else Broken
      case TtsStop(stop) =>
        if b.Inside? && stop.streamId == b.streamId && stop.lastSeq == b.frames then Outside else Broken
      case _ => b
  }

  function BracketFrom(b: Bracket, log: seq<Event>): Bracket {
    if log == [] then b else Scan(BracketFrom(b, log[..|log| - 1]), log[|log| - 1])
  }

  function BracketOf(log: seq<Event>): Bracket {
    BracketFrom(Outside, log)
  }

  lemma {:induction false} BracketFromAppend(b: Bracket, log: seq<Event>, more: seq<Event>)
    ensures BracketFrom(b, log + more) == BracketFrom(BracketFrom(b, log), more)
  {
    if more == [] {
      assert log + more == log;
    } else {
      assert (log + more)[..|log + more| - 1] == log + more[..|more| - 1];
      BracketFromAppend(b, log, more[..|more| - 1]);
    }
  }

  lemma {:induction false} BrokenStaysBroken(log: seq<Event>)
    ensures BracketFrom(Broken, log).Broken?
  {
    if log != [] {
      BrokenStaysBroken(log[..|log| - 1]);
    }
  }

  /** What holds of a log holds of its beginning. */
  lemma BeginningIsBracketed(log: seq<Event>, beginning: seq<Event>)
    requires !BracketOf(log).Broken? && beginning <= log
    ensures !BracketOf(beginning).Broken?
  {
    assert log == beginning + log[|beginning|..];
    BracketFromAppend(Outside, beginning, log[|beginning|..]);
    BrokenStaysBroken(log[|beginning|..]);
  }

  lemma ScanSnoc(b: Bracket, log: seq<Event>, e: Event)
    ensures BracketFrom(b, log + [e]) == Scan(BracketFrom(b, log), e)
  {
    assert (log + [e])[..|log|] == log;
  }

  /** How many audio frames a log holds. */
  function CountChunks(log: seq<Event>): nat {
    if log == [] then 0 else CountChunks(log[..|log| - 1]) + if log[|log| - 1].TtsChunk? then 1 else 0
  }

  /** A start and a stop that belong together: the same stream, the frames between them counted, nothing else. */
  ghost predicate Matches(log: seq<Event>, i: nat, j: nat) {
    && i < j < |log| && log[i].TtsStart? && log[j].TtsStop?
    && log[i].start.streamId == log[j].stop.streamId
    && log[j].stop.lastSeq == CountChunks(log[i..j])
    && forall k :: i < k < j ==> !log[k].TtsStart? && !log[k].TtsStop?
  }

  /** What not being broken means: every stop closes the latest start, with its id and its number of frames. */
  lemma {:induction false} EveryStopMatchesItsStart(log: seq<Event>, j: nat)
    requires !BracketOf(log).Broken? && j < |log| && log[j].TtsStop?
    ensures exists i :: Matches(log, i, j)
  {
    var before, upTo := log[..j], log[..j + 1];
    assert upTo == before + [log[j]];
    BeginningIsBracketed(log, upTo);
    ScanSnoc(Outside, before, log[j]);
    var i := OpenStart(before);
    assert before[i..] == log[i..j];
    assert Matches(log, i, j) by {
      assert before[i] == log[i];
      forall k | i < k < j ensures !log[k].TtsStart? && !log[k].TtsStop? {
        assert log[k] == before[k];
      }
    }
  }

  lemma {:induction false} OpenStart(log: seq<Event>) returns (i: nat)
    requires BracketOf(log).Inside?
    ensures i < |log| && log[i].TtsStart? && log[i].start.streamId == BracketOf(log).streamId
    ensures BracketOf(log).frames == CountChunks(log[i..])
    ensures forall k :: i < k < |log| ==> !log[k].TtsStart? && !log[k].TtsStop?
  {
    var n := |log| - 1;
    var before, e := log[..n], log[n];
    if e.TtsStart? {
      i := n;
      assert log[n..] == [e] && [e][..0] == [];
      assert CountChunks([e]) == CountChunks([e][..0]);
    } else {
      i := OpenStart(before);
      assert log[i..][..n - i] == before[i..];
      assert log[i] == before[i];
      forall k | i < k < |log| ensures !log[k].TtsStart? && !log[k].TtsStop? {
        if k < n {
          assert log[k] == before[k];
        }
      }
    }
  }

  /** Audio is only ever sent inside a stream. */
  lemma EveryChunkIsInside(log: seq<Event>, j: nat)
    requires !BracketOf(log).Broken? && j < |log| && log[j].TtsChunk?
    ensures BracketOf(log[..j]).Inside?
  {
    var before, upTo := log[..j], log[..j + 1];
    assert upTo == before + [log[j]];
    BeginningIsBracketed(log, upTo);
    ScanSnoc(Outside, before, log[j]);
  }
}
