/**
 Many turns on one gateway connection: each gets a sink of its own, a turn that fails is reported as an error, and the
 connection goes on. internal/gateway/handler.go:266-305 over internal/session/pipeline.go:67-238.
 */
module Turns {
  import opened Common
  import opened Bytes
  import opened StreamTracker
  import opened Outbound
  import opened Streams
  import opened Pipeline

  /** What the handler does with its connection: serve a turn, or report an error of some other event. */
  datatype Work = Served(turn: Turn) | Reports(code: string) {
    ghost predicate Valid() {
      Served? ==> turn.Valid()
    }

    /** The work begins a stream. */
    ghost predicate Speaks()
      requires Valid()
    {
      Served? && turn.Speaks()
    }

    ghost predicate LeavesOpen()
      requires Valid()
    {
      Served? && turn.LeavesOpen()
    }
  }

  ghost predicate AllValid(works: seq<Work>) {
    forall k :: 0 <= k < |works| ==> works[k].Valid()
  }

  const PIPELINE_FAILED := "pipeline_failed"

  ghost function WorkLog(work: Work, n: nat): seq<Event>
    requires work.Valid()
  {
    match work
    case Served(turn) => TurnLog(turn, n) + if !turn.Succeeds() then [ErrorEvent(PIPELINE_FAILED)] else []
    case Reports(code) => [ErrorEvent(code)]
  }

  /** The names given out so far. */
  ghost function NamesAfter(works: seq<Work>, n: nat): nat
    requires AllValid(works)
  {
    if works == [] then n
    else
      var last := works[|works| - 1];
      NamesAfter(works[..|works| - 1], n) + if last.Served? then NamesUsed(last.turn) else 0
  }

  /** Everything written on a connection that holds. */
  ghost function SessionLog(works: seq<Work>, n: nat): seq<Event>
    requires AllValid(works)
  {
    if works == [] then []
    else
      var before := works[..|works| - 1];
      SessionLog(before, n) + WorkLog(works[|works| - 1], NamesAfter(before, n))
  }

  /** The handler over its turns: each is written as far as it goes, whatever became of those before it. */
  method ServeTurns(works: seq<Work>, pipeline: Pipeline, conn: Outbox)
    requires AllValid(works)
    modifies pipeline, conn
    ensures Wrote(old(conn.sent), old(conn.broken), conn.sent, conn.broken, SessionLog(works, old(pipeline.idCounter)))
  {
    ghost var s0, b0, n := conn.sent, conn.broken, pipeline.idCounter;
    WroteNothing(s0, b0);
    for i := 0 to |works|
      invariant Wrote(s0, b0, conn.sent, conn.broken, SessionLog(works[..i], n))
      invariant !conn.broken ==> pipeline.idCounter == NamesAfter(works[..i], n)
    {
      assert works[..i + 1][..i] == works[..i];
      ghost var s1, b1, m := conn.sent, conn.broken, NamesAfter(works[..i], n);
      ServeOne(works[i], pipeline, conn, m);
      WroteBoth(s0, b0, s1, b1, conn.sent, conn.broken, SessionLog(works[..i], n), WorkLog(works[i], m), true);
    }
    assert works[..|works|] == works;
  }

  method ServeOne(work: Work, pipeline: Pipeline, conn: Outbox, ghost n: nat)
    requires work.Valid() && (!conn.broken ==> pipeline.idCounter == n)
    modifies pipeline, conn
    ensures Wrote(old(conn.sent), old(conn.broken), conn.sent, conn.broken, WorkLog(work, n))
    ensures !conn.broken ==> pipeline.idCounter == n + if work.Served? then NamesUsed(work.turn) else 0
  {
    ghost var s0, b0 := conn.sent, conn.broken;
    match work {
      case Served(turn) =>
        var sink := new GatewaySink(conn);
        ghost var m := pipeline.idCounter;
        var ok := pipeline.Run(turn, sink);
        ghost var s1, b1 := conn.sent, conn.broken;
        WroteSame(s0, b0, s1, b1, TurnLog(turn, m), TurnLog(turn, n));
        var failed := ErrorEvent(PIPELINE_FAILED);
        if ok {
          WroteFirst(s0, b0, s1, b1, TurnLog(turn, n), [failed], !turn.Succeeds());
        } else {
          var written := conn.Write(failed);
          PostedIsWrote(s1, b1, conn.sent, conn.broken, failed, written);
          WroteBoth(s0, b0, s1, b1, conn.sent, conn.broken, TurnLog(turn, n), [failed], !turn.Succeeds());
        }
      case Reports(code) =>
        var written := conn.Write(ErrorEvent(code));
        PostedIsWrote(s0, b0, conn.sent, conn.broken, ErrorEvent(code), written);
    }
  }

  // ---- The piece a turn writes ----

  /** What comes before the stream of a turn that speaks. */
  ghost function Lead(turn: Turn): seq<Event>
    requires turn.Valid() && turn.Answers()
  {
    [AsrFinal(turn.asr.value)] + DeltaEvents(turn.llm.items[..FirstRefusal(turn.llm, 0)])
    + [LlmDone(ReplyText(Flatten(turn.llm.items)))]
  }

  ghost function StreamStart(turn: Turn, n: nat): AudioStart {
    StartOf(IdText("tts", n + 1), turn.request)
  }

  /** The piece a work writes. */
  ghost function PieceOf(work: Work, n: nat): Piece
    requires work.Valid()
  {
    Piece(WorkLog(work, n), if work.Speaks() then Some(|Lead(work.turn)|) else None, !work.LeavesOpen())
  }

  lemma DeltasHoldNoAudio(texts: seq<string>)
    ensures NoAudio(DeltaEvents(texts))
  {
    DeltaEventsAreDeltas(texts);
    var deltas := DeltaEvents(texts);
    assert forall i :: 0 <= i < |deltas| ==> deltas[i] in deltas;
  }

  lemma Regroup(a: seq<Event>, b: seq<Event>, c: seq<Event>, d: seq<Event>, e: seq<Event>, f: seq<Event>, g: seq<Event>)
    ensures a + (b + (c + (d + (e + f)))) + g == (a + b + c) + (d + (e + (f + g)))
  {
  }

  lemma SpeakingPiece(turn: Turn, n: nat)
    requires turn.Valid() && turn.Speaks()
    ensures PieceOf(Served(turn), n).Fits()
    ensures WorkLog(Served(turn), n)[|Lead(turn)|..] != []
            && WorkLog(Served(turn), n)[|Lead(turn)|] == TtsStart(StreamStart(turn, n))
  {
    var texts := turn.llm.items[..FirstRefusal(turn.llm, 0)];
    var asr, deltas, done := [AsrFinal(turn.asr.value)], DeltaEvents(texts), [LlmDone(ReplyText(Flatten(turn.llm.items)))];
    var start, chunks := StreamStart(turn, n), ChunkEvents(turn.tts.items);
    var ending := if turn.tts.succeeds then Ending(IdText("tts", n + 1), |turn.tts.items|, IdText("act", n + 2)) else [];
    var report := if turn.tts.succeeds then [] else [ErrorEvent(PIPELINE_FAILED)];
    DeltasHoldNoAudio(texts);
    ChunkEventsAreChunks(turn.tts.items);
    ChunkEventsLength(turn.tts.items);
    Regroup(asr, deltas, done, [TtsStart(start)], chunks, ending, report);
    StreamPiece(asr + deltas + done, start, chunks, ending + report, turn.tts.succeeds);
  }

  lemma {:induction false} ChunkEventsLength(chunks: seq<seq<byte>>)
    ensures |ChunkEvents(chunks)| == |chunks|
  {
    if chunks != [] {
      ChunkEventsLength(chunks[..|chunks| - 1]);
    }
  }

  lemma WorkFits(work: Work, n: nat)
    requires work.Valid()
    ensures PieceOf(work, n).Fits()
  {
    if work.Speaks() {
      SpeakingPiece(work.turn, n);
    } else if work.Served? {
      DeltasHoldNoAudio(work.turn.llm.items[..FirstRefusal(work.turn.llm, 0)]);
    }
  }

  ghost function PiecesOf(works: seq<Work>, n: nat): (pieces: seq<Piece>)
    requires AllValid(works)
    ensures |pieces| == |works|
  {
    seq(|works|, k requires 0 <= k < |works| => PieceOf(works[k], NamesAfter(works[..k], n)))
  }

  lemma PiecesSnoc(works: seq<Work>, before: seq<Work>, last: Work, n: nat)
    requires AllValid(works) && AllValid(before) && last.Valid() && works == before + [last]
    ensures PiecesOf(works, n) == PiecesOf(before, n) + [PieceOf(last, NamesAfter(before, n))]
  {
    assert works[..|before|] == before;
    assert forall k :: 0 <= k < |before| ==> works[..k] == before[..k];
  }

  lemma {:induction false} PiecesFit(works: seq<Work>, n: nat)
    requires AllValid(works)
    ensures AllFit(PiecesOf(works, n))
  {
    if works != [] {
      var before, last := works[..|works| - 1], works[|works| - 1];
      PiecesFit(before, n);
      WorkFits(last, NamesAfter(before, n));
      PiecesSnoc(works, before, last, n);
      FitSnoc(PiecesOf(before, n), PieceOf(last, NamesAfter(before, n)), PiecesOf(works, n));
    }
  }

  lemma {:induction false} PiecesJoin(works: seq<Work>, n: nat)
    requires AllValid(works)
    ensures JoinLogs(PiecesOf(works, n)) == SessionLog(works, n)
  {
    if works != [] {
      var before, last := works[..|works| - 1], works[|works| - 1];
      PiecesJoin(before, n);
      PiecesSnoc(works, before, last, n);
      JoinSnoc(PiecesOf(before, n), PieceOf(last, NamesAfter(before, n)), PiecesOf(works, n));
    }
  }

  lemma KthPiece(works: seq<Work>, n: nat, k: nat)
    requires AllValid(works) && k < |works|
    ensures PiecesOf(works, n)[k] == PieceOf(works[k], NamesAfter(works[..k], n))
    ensures PiecesOf(works, n)[..k] == PiecesOf(works[..k], n)
  {
    assert forall i :: 0 <= i < k ==> works[..k][..i] == works[..i];
  }

  // ---- Many turns on one connection ----

  /**
   Over any turns, each failing anywhere, and however early the connection breaks: every tts.stop carries the id of
   the latest tts.start and the number of frames sent since.
   */
  lemma StopsAreRight(works: seq<Work>, n: nat, written: seq<Event>, j: nat)
    requires AllValid(works) && written <= SessionLog(works, n)
    requires j < |written| && written[j].TtsStop?
    ensures exists i :: Matches(written, i, j)
  {
    PiecesFit(works, n);
    PiecesJoin(works, n);
    PiecesAlternate(PiecesOf(works, n));
    BeginningIsBracketed(SessionLog(works, n), written);
    EveryStopMatchesItsStart(written, j);
  }

  /** Where the stream of the k-th piece of work begins. */
  ghost function StartAt(works: seq<Work>, n: nat, k: nat): nat
    requires AllValid(works) && k < |works| && works[k].Speaks()
  {
    |SessionLog(works[..k], n)| + |Lead(works[k].turn)|
  }

  lemma StartIsPlace(works: seq<Work>, n: nat, k: nat)
    requires AllValid(works) && k < |works|
    ensures PiecesOf(works, n)[k].stream.Some? <==> works[k].Speaks()
    ensures PiecesOf(works, n)[k].LeavesOpen() <==> works[k].LeavesOpen()
    ensures works[k].Speaks() ==> PlaceOf(PiecesOf(works, n), k) == StartAt(works, n, k)
  {
    KthPiece(works, n, k);
    PiecesJoin(works[..k], n);
  }

  /**
   A tts.start stays without its tts.stop exactly if its turn failed in between: the stream of each turn that speaks
   begins at its place, and is closed if and only if the synthesis of that turn succeeds.
   */
  lemma StreamIsClosedIff(works: seq<Work>, n: nat, k: nat)
    requires AllValid(works) && k < |works| && works[k].Speaks()
    ensures var log, at := SessionLog(works, n), StartAt(works, n, k);
            && at < |log| && log[at] == TtsStart(StreamStart(works[k].turn, NamesAfter(works[..k], n)))
            && (Closed(log, at) <==> works[k].turn.tts.succeeds)
  {
    PiecesFit(works, n);
    PiecesJoin(works, n);
    StartIsPlace(works, n, k);
    StreamOfPiece(PiecesOf(works, n), k);
    KthPiece(works, n, k);
    SpeakingPiece(works[k].turn, NamesAfter(works[..k], n));
  }

  /** And there are no other streams. */
  lemma EveryStartIsOfATurn(works: seq<Work>, n: nat, i: nat) returns (k: nat)
    requires AllValid(works) && i < |SessionLog(works, n)| && SessionLog(works, n)[i].TtsStart?
    ensures k < |works| && works[k].Speaks() && i == StartAt(works, n, k)
  {
    PiecesFit(works, n);
    PiecesJoin(works, n);
    k := StartBelongs(PiecesOf(works, n), i);
    StartIsPlace(works, n, k);
  }

  lemma {:induction false} NamesGrow(works: seq<Work>, n: nat, k: nat, l: nat)
    requires AllValid(works) && k < l <= |works| && works[k].Speaks()
    ensures NamesAfter(works[..k], n) < NamesAfter(works[..l], n)
    decreases l
  {
    assert works[..l][..l - 1] == works[..l - 1];
    if k < l - 1 {
      NamesGrow(works, n, k, l - 1);
    }
  }

  /** The name of the stream of the k-th piece of work. */
  ghost function NameOf(works: seq<Work>, n: nat, k: nat): string
    requires AllValid(works) && k < |works|
  {
    IdText("tts", NamesAfter(works[..k], n) + 1)
  }

  lemma StreamIsNamed(works: seq<Work>, n: nat, k: nat)
    requires AllValid(works) && k < |works| && works[k].Speaks()
    ensures var log, at := SessionLog(works, n), StartAt(works, n, k);
            at < |log| && log[at].TtsStart? && log[at].start.streamId == NameOf(works, n, k)
  {
    StreamIsClosedIff(works, n, k);
  }

  lemma NamesOfDiffer(works: seq<Work>, n: nat, k: nat, l: nat)
    requires AllValid(works) && k < l < |works| && works[k].Speaks()
    ensures NameOf(works, n, k) != NameOf(works, n, l)
  {
    NamesGrow(works, n, k, l);
    NamesDiffer("tts", NamesAfter(works[..k], n) + 1, NamesAfter(works[..l], n) + 1);
  }

  /** No two streams of a connection share a name. */
  lemma StreamNamesDiffer(works: seq<Work>, n: nat, k: nat, l: nat)
    requires AllValid(works) && k < l < |works| && works[k].Speaks() && works[l].Speaks()
    ensures var log, at, to := SessionLog(works, n), StartAt(works, n, k), StartAt(works, n, l);
            && at < |log| && to < |log| && log[at].TtsStart? && log[to].TtsStart?
            && log[at].start.streamId != log[to].start.streamId
  {
    StreamIsNamed(works, n, k);
    StreamIsNamed(works, n, l);
    NamesOfDiffer(works, n, k, l);
  }

  /** Some turn leaves its stream open and a later one begins another. */
  ghost predicate GivesUpAStream(works: seq<Work>)
    requires AllValid(works)
  {
    exists k, l :: 0 <= k < l < |works| && works[k].LeavesOpen() && works[l].Speaks()
  }

  /**
   So tts.start and tts.stop alternate over a connection if and only if no turn whose synthesis failed after its
   start is followed by a turn that begins a stream.
   */
  lemma ConnectionAlternatesIff(works: seq<Work>, n: nat)
    requires AllValid(works)
    ensures Alternates(SessionLog(works, n)) <==> !GivesUpAStream(works)
  {
    var pieces := PiecesOf(works, n);
    PiecesFit(works, n);
    PiecesJoin(works, n);
    PiecesAlternate(pieces);
    forall k | 0 <= k < |works|
      ensures pieces[k].stream.Some? <==> works[k].Speaks()
      ensures pieces[k].LeavesOpen() <==> works[k].LeavesOpen()
    {
      StartIsPlace(works, n, k);
    }
  }

  /** An input at which they do not: synthesis fails after its first frame, and the next turn succeeds. */
  lemma FailedSynthesisBreaksAlternation(n: nat)
    ensures var failed := Turn(Some("hi"), Script(["yes"], [false], true), Script([[0]], [false], false),
                               Request("", 16000, 1));
            var next := failed.(tts := Script([], [], true));
            && AllValid([Served(failed), Served(next)]) && failed.LeavesOpen() && next.Succeeds()
            && !Alternates(SessionLog([Served(failed), Served(next)], n))
  {
    var llm := Script(["yes"], [false], true);
    assert FirstRefusal(llm, 1) == 1 && FirstRefusal(llm, 0) == 1;
    var failed := Turn(Some("hi"), llm, Script([[0]], [false], false), Request("", 16000, 1));
    var next := failed.(tts := Script([], [], true));
    var works := [Served(failed), Served(next)];
    assert works[0].LeavesOpen() && works[1].Speaks();
    assert GivesUpAStream(works);
    ConnectionAlternatesIff(works, n);
  }
}
