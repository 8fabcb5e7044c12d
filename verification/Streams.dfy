/**
 Logs put together from pieces that hold one stream each at most: which streams are closed, and when starts and stops
 alternate. internal/gateway/handler.go:429-480 and internal/voicews/session.go:1328-1366 write such pieces.
 */
module Streams {
  import opened Common
  import opened StreamTracker
  import opened Outbound

  // ---- Logs made of pieces that hold one stream each at most ----

  ghost predicate NoAudio(log: seq<Event>) {
    forall i :: 0 <= i < |log| ==> !log[i].TtsStart? && !log[i].TtsChunk? && !log[i].TtsStop?
  }

  ghost predicate Closed(log: seq<Event>, i: nat) {
    exists j: nat :: Matches(log, i, j)
  }

  /** A part of a log: where its stream begins, if it has one, and whether it ends there too. */
  datatype Piece = Piece(log: seq<Event>, stream: Option<nat>, closed: bool) {
    ghost predicate Fits() {
      match stream
      case None => NoAudio(log)
      case Some(at) =>
        && at < |log| && log[at].TtsStart? && NoAudio(log[..at])
        && (forall i :: at < i < |log| ==> !log[i].TtsStart?)
        && (Closed(log, at) <==> closed)
        && forall b: Bracket :: !b.Broken? ==>
             !BracketFrom(b, log).Broken? && (BracketFrom(b, log).Inside? <==> !closed)
    }

    predicate LeavesOpen() {
      stream.Some? && !closed
    }
  }

  ghost predicate AllFit(pieces: seq<Piece>) {
    pieces != [] ==> AllFit(pieces[..|pieces| - 1]) && pieces[|pieces| - 1].Fits()
  }

  function JoinLogs(pieces: seq<Piece>): seq<Event> {
    if pieces == [] then [] else JoinLogs(pieces[..|pieces| - 1]) + pieces[|pieces| - 1].log
  }

  /** Where the stream of the k-th piece begins. */
  function PlaceOf(pieces: seq<Piece>, k: nat): nat
    requires k < |pieces| && pieces[k].stream.Some?
  {
    |JoinLogs(pieces[..k])| + pieces[k].stream.value
  }

  lemma {:induction false} NoAudioKeepsBracket(b: Bracket, log: seq<Event>)
    requires NoAudio(log)
    ensures BracketFrom(b, log) == b
  {
    if log != [] {
      NoAudioKeepsBracket(b, log[..|log| - 1]);
    }
  }

  /** Whatever comes later closes no earlier stream: its own start comes before its stop. */
  lemma ClosedBefore(log: seq<Event>, p: Piece, i: nat)
    requires p.Fits() && i < |log|
    ensures Closed(log + p.log, i) <==> Closed(log, i)
  {
    var all := log + p.log;
    assert forall k :: 0 <= k < |log| ==> all[k] == log[k];
    if Closed(log, i) {
      var j: nat :| Matches(log, i, j);
      assert all[i..j] == log[i..j];
      assert Matches(all, i, j);
    }
    if Closed(all, i) {
      var j: nat :| Matches(all, i, j);
      StopIsEarly(log, p, i, j);
      assert all[i..j] == log[i..j];
      assert Matches(log, i, j);
    }
  }

  lemma StopIsEarly(log: seq<Event>, p: Piece, i: nat, j: nat)
    requires p.Fits() && i < |log| && Matches(log + p.log, i, j)
    ensures j < |log|
  {
    var all := log + p.log;
    assert forall k :: |log| <= k < |all| ==> all[k] == p.log[k - |log|];
    if p.stream.Some? {
      var at := p.stream.value;
      assert forall k :: 0 <= k < at ==> p.log[k] == p.log[..at][k];
      assert all[|log| + at].TtsStart?;
    }
  }

  lemma MatchesShifted(log: seq<Event>, more: seq<Event>, i: nat, j: nat)
    requires i < |more|
    ensures Matches(log + more, |log| + i, |log| + j) <==> Matches(more, i, j)
  {
    var all := log + more;
    if i < j < |more| {
      assert all[|log| + i..|log| + j] == more[i..j];
      assert forall k :: i <= k <= j ==> all[|log| + k] == more[k];
      assert forall k :: |log| + i <= k <= |log| + j ==> all[k] == more[k - |log|];
    }
  }

  lemma ClosedAfter(log: seq<Event>, more: seq<Event>, i: nat)
    requires i < |more|
    ensures Closed(log + more, |log| + i) <==> Closed(more, i)
  {
    if Closed(more, i) {
      var j: nat :| Matches(more, i, j);
      MatchesShifted(log, more, i, j);
    }
    if Closed(log + more, |log| + i) {
      var j: nat :| Matches(log + more, |log| + i, j);
      MatchesShifted(log, more, i, j - |log|);
    }
  }

  lemma {:induction false} StreamOfPiece(pieces: seq<Piece>, k: nat)
    requires AllFit(pieces) && k < |pieces| && pieces[k].stream.Some?
    ensures var log, at := JoinLogs(pieces), PlaceOf(pieces, k);
            && at < |log| && pieces[k].stream.value < |pieces[k].log| && log[at] == pieces[k].log[pieces[k].stream.value]
            && (Closed(log, at) <==> pieces[k].closed)
  {
    var before, last := pieces[..|pieces| - 1], pieces[|pieces| - 1];
    if k < |before| {
      assert before[..k] == pieces[..k];
      StreamOfPiece(before, k);
      ClosedBefore(JoinLogs(before), last, PlaceOf(before, k));
    } else {
      ClosedAfter(JoinLogs(before), last.log, last.stream.value);
    }
  }

  lemma {:induction false} StartBelongs(pieces: seq<Piece>, i: nat) returns (k: nat)
    requires AllFit(pieces) && i < |JoinLogs(pieces)| && JoinLogs(pieces)[i].TtsStart?
    ensures k < |pieces| && pieces[k].stream.Some? && i == PlaceOf(pieces, k)
  {
    var before, last := pieces[..|pieces| - 1], pieces[|pieces| - 1];
    if i < |JoinLogs(before)| {
      k := StartBelongs(before, i);
      assert before[..k] == pieces[..k];
    } else {
      k := |before|;
      OnlyStart(last, i - |JoinLogs(before)|);
    }
  }

  lemma OnlyStart(p: Piece, i: nat)
    requires p.Fits() && i < |p.log| && p.log[i].TtsStart?
    ensures p.stream == Some(i)
  {
    if p.stream.Some? {
      var at := p.stream.value;
      forall k | 0 <= k < at ensures !p.log[k].TtsStart? {
        assert p.log[..at][k] == p.log[k];
      }
    }
  }

  // ---- When starts and stops alternate ----

  /** No start comes while another stream is open. */
  ghost predicate Alternates(log: seq<Event>) {
    forall i :: 0 <= i < |log| && log[i].TtsStart? ==> !BracketOf(log[..i]).Inside?
  }

  /** Some piece leaves its stream open and a later one begins another. */
  ghost predicate Abandons(pieces: seq<Piece>) {
    exists k, l :: 0 <= k < l < |pieces| && pieces[k].LeavesOpen() && pieces[l].stream.Some?
  }

  ghost predicate SomeLeftOpen(pieces: seq<Piece>) {
    exists k :: 0 <= k < |pieces| && pieces[k].LeavesOpen()
  }

  lemma AlternatesPrefix(log: seq<Event>, more: seq<Event>)
    ensures Alternates(log + more) <==>
            Alternates(log) && forall i :: 0 <= i < |more| && more[i].TtsStart? ==> !BracketOf(log + more[..i]).Inside?
  {
    var all := log + more;
    assert forall i :: 0 <= i < |log| ==> all[i] == log[i] && all[..i] == log[..i];
    forall i | |log| <= i < |all| ensures all[i] == more[i - |log|] && all[..i] == log + more[..i - |log|] {
    }
    if Alternates(all) {
      forall i | 0 <= i < |more| && more[i].TtsStart? ensures !BracketOf(log + more[..i]).Inside? {
        assert all[|log| + i].TtsStart?;
      }
    }
  }

  lemma AlternatesWithOneMore(log: seq<Event>, p: Piece)
    requires p.Fits() && !BracketOf(log).Broken?
    ensures Alternates(log + p.log) <==> Alternates(log) && (p.stream.Some? ==> !BracketOf(log).Inside?)
  {
    AlternatesPrefix(log, p.log);
    forall i | 0 <= i < |p.log| && p.log[i].TtsStart?
      ensures p.stream == Some(i) && BracketOf(log + p.log[..i]) == BracketOf(log)
    {
      OnlyStart(p, i);
      BracketFromAppend(Outside, log, p.log[..i]);
      NoAudioKeepsBracket(BracketOf(log), p.log[..i]);
    }
  }

  lemma OneMorePiece(pieces: seq<Piece>, before: seq<Piece>, last: Piece)
    requires pieces == before + [last]
    ensures Abandons(pieces) <==> Abandons(before) || (SomeLeftOpen(before) && last.stream.Some?)
    ensures SomeLeftOpen(pieces) <==> SomeLeftOpen(before) || last.LeavesOpen()
  {
    assert pieces[|before|] == last && forall k :: 0 <= k < |before| ==> pieces[k] == before[k];
    if Abandons(before) {
      var k, l :| 0 <= k < l < |before| && before[k].LeavesOpen() && before[l].stream.Some?;
      assert pieces[k].LeavesOpen() && pieces[l].stream.Some?;
    }
    if SomeLeftOpen(before) {
      var k :| 0 <= k < |before| && before[k].LeavesOpen();
      assert pieces[k].LeavesOpen();
    }
  }

  /** Where a piece leaves a log. */
  lemma BracketAfterPiece(log: seq<Event>, p: Piece)
    requires p.Fits() && !BracketOf(log).Broken?
    ensures !BracketOf(log + p.log).Broken?
    ensures BracketOf(log + p.log).Inside? <==> if p.stream.Some? then !p.closed else BracketOf(log).Inside?
  {
    BracketFromAppend(Outside, log, p.log);
    if p.stream.None? {
      NoAudioKeepsBracket(BracketOf(log), p.log);
    }
  }

  /** What is known of the pieces so far. */
  ghost predicate Known(pieces: seq<Piece>, bracket: Bracket, alternates: bool) {
    && !bracket.Broken?
    && (alternates <==> !Abandons(pieces))
    && (alternates ==> (bracket.Inside? <==> SomeLeftOpen(pieces)))
  }

  lemma KnownOfOneMore(before: seq<Piece>, bracket: Bracket, alternates: bool, last: Piece,
                       pieces: seq<Piece>, bracket': Bracket, alternates': bool)
    requires Known(before, bracket, alternates) && pieces == before + [last] && !bracket'.Broken?
    requires alternates' <==> alternates && (last.stream.Some? ==> !bracket.Inside?)
    requires bracket'.Inside? <==> if last.stream.Some? then !last.closed else bracket.Inside?
    ensures Known(pieces, bracket', alternates')
  {
    OneMorePiece(pieces, before, last);
  }

  lemma {:induction false} PiecesAlternate(pieces: seq<Piece>)
    requires AllFit(pieces)
    ensures Known(pieces, BracketOf(JoinLogs(pieces)), Alternates(JoinLogs(pieces)))
  {
    if pieces != [] {
      var before, last := pieces[..|pieces| - 1], pieces[|pieces| - 1];
      PiecesAlternate(before);
      var log := JoinLogs(before);
      AlternatesWithOneMore(log, last);
      BracketAfterPiece(log, last);
      KnownOfOneMore(before, BracketOf(log), Alternates(log), last, pieces, BracketOf(log + last.log),
                     Alternates(log + last.log));
    }
  }

  // ---- A piece with a stream ----

  /** The end of a stream: its stop and what follows, or no audio. */
  ghost predicate IsTail(tail: seq<Event>, id: string, frames: nat, closed: bool) {
    if closed then tail != [] && tail[0] == TtsStop(AudioStop(id, frames)) && NoAudio(tail[1..]) else NoAudio(tail)
  }

  /** After the start there are frames, then perhaps the stop, and no other start. */
  lemma StreamEvents(lead: seq<Event>, start: AudioStart, chunks: seq<Event>, tail: seq<Event>, closed: bool)
    requires AllChunks(chunks) && IsTail(tail, start.streamId, |chunks|, closed)
    ensures var log, at, end := lead + ([TtsStart(start)] + (chunks + tail)), |lead|, |lead| + 1 + |chunks|;
            && log[at] == TtsStart(start) && log[..at] == lead
            && (forall i :: at < i < end ==> log[i].TtsChunk?)
            && (forall i :: end < i < |log| ==> !log[i].TtsStart? && !log[i].TtsStop?)
            && end + |tail| == |log| && (tail != [] ==> log[end] == tail[0])
            && log[at..end] == [TtsStart(start)] + chunks
  {
    var log, at, end := lead + ([TtsStart(start)] + (chunks + tail)), |lead|, |lead| + 1 + |chunks|;
    forall i | at < i < end ensures log[i].TtsChunk? {
      assert log[i] == chunks[i - at - 1] && log[i] in chunks;
    }
    forall i | end < i < |log| ensures !log[i].TtsStart? && !log[i].TtsStop? {
      assert log[i] == tail[i - end] == tail[1..][i - end - 1];
    }
  }

  /** A stream: what comes before it, its start, its frames, and its tail. */
  lemma StreamPiece(lead: seq<Event>, start: AudioStart, chunks: seq<Event>, tail: seq<Event>, closed: bool)
    requires NoAudio(lead) && AllChunks(chunks) && IsTail(tail, start.streamId, |chunks|, closed)
    ensures Piece(lead + ([TtsStart(start)] + (chunks + tail)), Some(|lead|), closed).Fits()
  {
    var log, at, end := lead + ([TtsStart(start)] + (chunks + tail)), |lead|, |lead| + 1 + |chunks|;
    StreamEvents(lead, start, chunks, tail, closed);
    StreamIsClosed(log, at, end, chunks, closed, start.streamId);
    forall b: Bracket | !b.Broken?
      ensures !BracketFrom(b, log).Broken? && (BracketFrom(b, log).Inside? <==> !closed)
    {
      StreamBracket(b, lead, start, chunks, tail, closed);
    }
  }

  lemma StreamIsClosed(log: seq<Event>, at: nat, end: nat, chunks: seq<Event>, closed: bool, id: string)
    requires at < end <= |log| && log[at].TtsStart? && log[at].start.streamId == id && AllChunks(chunks)
    requires forall i :: at < i < end ==> log[i].TtsChunk?
    requires forall i :: end < i < |log| ==> !log[i].TtsStart? && !log[i].TtsStop?
    requires log[at..end] == [log[at]] + chunks
    requires if closed then end < |log| && log[end] == TtsStop(AudioStop(id, |chunks|))
             else end < |log| ==> !log[end].TtsStop?
    ensures Closed(log, at) <==> closed
  {
    CountAfterStart(log[at], chunks);
    if closed {
      assert Matches(log, at, end);
    }
  }

  ghost predicate AllChunks(events: seq<Event>) {
    forall e :: e in events ==> e.TtsChunk?
  }

  lemma {:induction false} CountAfterStart(start: Event, chunks: seq<Event>)
    requires start.TtsStart? && AllChunks(chunks)
    ensures CountChunks([start] + chunks) == |chunks|
  {
    if chunks == [] {
      assert [start] + chunks == [start] && [start][..0] == [];
    } else {
      var n := |chunks| - 1;
      assert ([start] + chunks)[..n + 1] == [start] + chunks[..n];
      assert chunks[n] in chunks;
      CountAfterStart(start, chunks[..n]);
    }
  }

  lemma {:induction false} FramesAreCounted(id: string, chunks: seq<Event>)
    requires AllChunks(chunks)
    ensures BracketFrom(Inside(id, 0), chunks) == Inside(id, |chunks|)
  {
    if chunks != [] {
      assert chunks[|chunks| - 1] in chunks;
      FramesAreCounted(id, chunks[..|chunks| - 1]);
    }
  }

  lemma StreamBracket(b: Bracket, lead: seq<Event>, start: AudioStart, chunks: seq<Event>, tail: seq<Event>, closed: bool)
    requires !b.Broken? && NoAudio(lead) && AllChunks(chunks) && IsTail(tail, start.streamId, |chunks|, closed)
    ensures BracketFrom(b, lead + ([TtsStart(start)] + (chunks + tail)))
            == if closed then Outside else Inside(start.streamId, |chunks|)
  {
    var id, s := start.streamId, [TtsStart(start)];
    BracketFromAppend(b, lead, s + (chunks + tail));
    NoAudioKeepsBracket(b, lead);
    BracketFromAppend(b, s, chunks + tail);
    BracketOfOne(b, TtsStart(start));
    BracketFromAppend(Inside(id, 0), chunks, tail);
    FramesAreCounted(id, chunks);
    if closed {
      assert tail == [tail[0]] + tail[1..];
      BracketFromAppend(Inside(id, |chunks|), [tail[0]], tail[1..]);
      BracketOfOne(Inside(id, |chunks|), tail[0]);
      NoAudioKeepsBracket(Outside, tail[1..]);
    } else {
      NoAudioKeepsBracket(Inside(id, |chunks|), tail);
    }
  }

  lemma BracketOfOne(b: Bracket, e: Event)
    ensures BracketFrom(b, [e]) == Scan(b, e)
  {
    assert [e][..0] == [];
  }

  lemma FitSnoc(before: seq<Piece>, p: Piece, pieces: seq<Piece>)
    requires AllFit(before) && p.Fits() && pieces == before + [p]
    ensures AllFit(pieces)
  {
    assert pieces[..|before|] == before;
  }

  lemma JoinSnoc(before: seq<Piece>, p: Piece, pieces: seq<Piece>)
    requires pieces == before + [p]
    ensures JoinLogs(pieces) == JoinLogs(before) + p.log
  {
    assert pieces[..|before|] == before;
  }
}
