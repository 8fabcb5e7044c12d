/**
 Cutting a reply into short pieces for speech: the streaming segmenter of the voice session
 (internal/voicews/session.go:1371-1442) and the batch splitter of the provider
 (internal/provider/openai_compatible.go:587-626).
 */
module Segmenter {
  import opened Common
  import opened Text

  const DEFAULT_SEGMENT_MAX_RUNES := 120

  /** A piece is cut at maxRunes at the latest, and at a soft break from softMin on. */
  datatype Limits = Limits(maxRunes: nat, softMin: nat) {
    ghost predicate Valid() {
      1 <= softMin <= maxRunes
    }
  }

  /** realtimeTTSSoftMinRunes never exceeds the maximum. */
  function RealtimeLimits(maxRunes: nat, softMin: nat): (limits: Limits)
    requires maxRunes > 0 && softMin > 0
    ensures limits.Valid() && limits.maxRunes == maxRunes
    ensures limits.softMin <= softMin && (limits.softMin < softMin ==> limits.softMin == maxRunes)
  {
    Limits(maxRunes, if softMin > maxRunes then maxRunes else softMin)
  }

  predicate IsSentenceBreak(r: char) {
    || r == '.' || r == '!' || r == '?' || r == ';'
    || r == '\U{3002}' || r == '\U{FF01}' || r == '\U{FF1F}' || r == '\U{FF1B}'
  }

  predicate IsSoftBreak(r: char) {
    r == ',' || r == ':' || r == '\U{FF0C}' || r == '\U{3001}' || r == '\U{FF1A}'
  }

  /** Does the rune r, as the count-th of its piece, end the piece? */
  predicate Cuts(r: char, count: nat, limits: Limits) {
    || IsSentenceBreak(r)
    || r == '\n'
    || count >= limits.maxRunes
    || (count >= limits.softMin && IsSoftBreak(r))
  }

  /** The segment made of a piece: its trimmed text, or nothing. */
  function Emit(piece: string): seq<string> {
    if Trim(piece) == "" then [] else [Trim(piece)]
  }

  function EmitAll(pieces: seq<string>): seq<string> {
    if pieces == [] then [] else EmitAll(pieces[..|pieces| - 1]) + Emit(pieces[|pieces| - 1])
  }

  // ---- What the cutting means, without reference to any loop ----

  /** No rune of s ends the piece that begins with s. */
  ghost predicate Uncut(s: string, limits: Limits) {
    forall i :: 0 <= i < |s| ==> !Cuts(s[i], i + 1, limits)
  }

  /** The last rune of s, and no earlier one, ends the piece. */
  ghost predicate IsPiece(s: string, limits: Limits) {
    s != "" && Uncut(s[..|s| - 1], limits) && Cuts(s[|s| - 1], |s|, limits)
  }

  /** pieces, then rest, is the text, cut as early as the rules allow. */
  ghost predicate IsCutting(text: string, pieces: seq<string>, rest: string, limits: Limits) {
    && Flatten(pieces) + rest == text
    && (forall p :: p in pieces ==> IsPiece(p, limits))
    && Uncut(rest, limits)
  }

  /** A piece ends at a sentence break, a line break, the maximum, or a soft break late enough; written out. */
  lemma CutsWrittenOut(r: char, count: nat, limits: Limits)
    ensures Cuts(r, count, limits) <==>
              || r in {'.', '!', '?', ';', '\n', '\U{3002}', '\U{FF01}', '\U{FF1F}', '\U{FF1B}'}
              || count >= limits.maxRunes
              || (count >= limits.softMin && r in {',', ':', '\U{FF0C}', '\U{3001}', '\U{FF1A}'})
  {
  }

  // ---- The segmenter as a function of its buffer ----

  datatype Progress = Progress(segments: seq<string>, rest: string)

  const START := Progress([], "")

  function Push(p: Progress, r: char, limits: Limits): Progress {
    var buf := p.rest + [r];
    if Cuts(r, |buf|, limits) then Progress(p.segments + Emit(buf), "") else Progress(p.segments, buf)
  }

  function Feed(p: Progress, text: string, limits: Limits): Progress {
    if text == "" then p else Push(Feed(p, text[..|text| - 1], limits), text[|text| - 1], limits)
  }

  /** Everything said of a whole reply: what was emitted on the way, and the flushed rest. */
  function Segments(text: string, limits: Limits): seq<string> {
    var p := Feed(START, text, limits);
    p.segments + Emit(p.rest)
  }

  /** Feeding two deltas in turn is feeding them joined. */
  lemma {:induction false} FeedAppend(p: Progress, a: string, b: string, limits: Limits)
    ensures Feed(p, a + b, limits) == Feed(Feed(p, a, limits), b, limits)
  {
    if b == "" {
      assert a + b == a;
    } else {
      var n := |a + b| - 1;
      assert (a + b)[..n] == a + b[..|b| - 1] && (a + b)[n] == b[|b| - 1];
      FeedAppend(p, a, b[..|b| - 1], limits);
    }
  }

  function FeedDeltas(p: Progress, deltas: seq<string>, limits: Limits): Progress {
    if deltas == [] then p
    else Feed(FeedDeltas(p, deltas[..|deltas| - 1], limits), deltas[|deltas| - 1], limits)
  }

  /** How the language model happens to split its reply into deltas has no effect on the segments. */
  lemma {:induction false} SplitIntoDeltasIsIrrelevant(deltas: seq<string>, limits: Limits)
    ensures FeedDeltas(START, deltas, limits) == Feed(START, Flatten(deltas), limits)
  {
    if deltas != [] {
      var n := |deltas| - 1;
      SplitIntoDeltasIsIrrelevant(deltas[..n], limits);
      FeedAppend(START, Flatten(deltas[..n]), deltas[n], limits);
      FlattenSnoc(deltas[..n], deltas[n]);
      assert deltas == deltas[..n] + [deltas[n]];
    }
  }

  lemma FeedLast(text: string, before: string, r: char, limits: Limits)
    requires text != "" && before == text[..|text| - 1] && r == text[|text| - 1]
    ensures Feed(START, text, limits) == Push(Feed(START, before, limits), r, limits) && before + [r] == text
  {
  }

  /** The pieces behind the progress made so far. */
  lemma {:induction false} FeedCuts(text: string, limits: Limits) returns (pieces: seq<string>)
    ensures var p := Feed(START, text, limits);
            IsCutting(text, pieces, p.rest, limits) && p.segments == EmitAll(pieces)
  {
    if text == "" {
      pieces := [];
    } else {
      var n := |text| - 1;
      var before := FeedCuts(text[..n], limits);
      var p := Feed(START, text[..n], limits);
      FeedLast(text, text[..n], text[n], limits);
      pieces := CuttingGrows(text[..n], before, p.rest, text[n], limits);
    }
  }

  /** One more rune either lengthens the rest or closes a piece. */
  lemma CuttingGrows(text: string, before: seq<string>, rest: string, r: char, limits: Limits)
    returns (pieces: seq<string>)
    requires IsCutting(text, before, rest, limits)
    ensures var p := Push(Progress(EmitAll(before), rest), r, limits);
            IsCutting(text + [r], pieces, p.rest, limits) && p.segments == EmitAll(pieces)
  {
    var buf := rest + [r];
    assert buf[..|buf| - 1] == rest;
    assert text + [r] == Flatten(before) + buf;
    if Cuts(r, |buf|, limits) {
      pieces := before + [buf];
      FlattenSnoc(before, buf);
      assert pieces[..|before|] == before;
    } else {
      pieces := before;
    }
  }

  /** The segments of a reply are the trimmed non-blank pieces of its cutting. */
  lemma SegmentsAreThePieces(text: string, limits: Limits) returns (pieces: seq<string>, rest: string)
    ensures IsCutting(text, pieces, rest, limits)
    ensures Segments(text, limits) == EmitAll(pieces + [rest])
  {
    pieces := FeedCuts(text, limits);
    rest := Feed(START, text, limits).rest;
    assert (pieces + [rest])[..|pieces|] == pieces;
  }

  /** There is only one way to cut a text. */
  lemma {:induction false} CuttingIsUnique(text: string, p: seq<string>, r: string, p': seq<string>, r': string,
                                           limits: Limits)
    requires IsCutting(text, p, r, limits) && IsCutting(text, p', r', limits)
    ensures p == p' && r == r'
    decreases |p|
  {
    if p == [] && p' == [] {
      assert r == text == r';
    } else if p == [] {
      FirstPieceIsUncut(text, p', r', r, limits);
    } else if p' == [] {
      FirstPieceIsUncut(text, p, r, r', limits);
    } else {
      var a, b := p[0], p'[0];
      assert a in p && b in p' && IsPiece(a, limits) && IsPiece(b, limits);
      assert text == a + (Flatten(p[1..]) + r) == b + (Flatten(p'[1..]) + r');
      assert a == text[..|a|] && b == text[..|b|];
      PieceEnds(text, a, limits);
      PieceEnds(text, b, limits);
      assert |a| == |b|;
      var tail := text[|a|..];
      assert tail == Flatten(p[1..]) + r == Flatten(p'[1..]) + r';
      CuttingIsUnique(tail, p[1..], r, p'[1..], r', limits);
      assert p == [a] + p[1..] && p' == [b] + p'[1..];
    }
  }

  /** A piece at the head of a text ends at the first rune that cuts. */
  lemma PieceEnds(text: string, a: string, limits: Limits)
    requires IsPiece(a, limits) && |a| <= |text| && a == text[..|a|]
    ensures Cuts(text[|a| - 1], |a| - 1 + 1, limits)
    ensures forall i :: 0 <= i < |a| - 1 ==> !Cuts(text[i], i + 1, limits)
  {
    var before := a[..|a| - 1];
    forall i | 0 <= i < |a| - 1 ensures !Cuts(text[i], i + 1, limits) {
      assert before[i] == text[i];
    }
  }

  lemma FirstPieceIsUncut(text: string, p: seq<string>, r: string, uncut: string, limits: Limits)
    requires p != [] && IsCutting(text, p, r, limits)
    requires uncut == text
    ensures !Uncut(uncut, limits)
  {
    var a := p[0];
    assert IsPiece(a, limits);
    assert text == a + (Flatten(p[1..]) + r);
    assert uncut[|a| - 1] == a[|a| - 1];
  }

  ghost predicate IsSpeakable(segment: string, limits: Limits) {
    && segment != "" && Trimmed(segment)
    && |segment| <= limits.maxRunes
    && forall i :: 0 <= i < |segment| - 1 ==> !IsSentenceBreak(segment[i]) && segment[i] != '\n'
  }

  lemma UncutIsShort(s: string, limits: Limits)
    requires limits.Valid() && Uncut(s, limits)
    ensures |s| < limits.maxRunes
  {
    if |s| >= limits.maxRunes {
      assert Cuts(s[limits.maxRunes - 1], limits.maxRunes, limits);
    }
  }

  lemma PieceIsSpeakable(piece: string, limits: Limits)
    requires limits.Valid() && (IsPiece(piece, limits) || Uncut(piece, limits))
    ensures forall s :: s in Emit(piece) ==> IsSpeakable(s, limits)
  {
    var lead, trail := TrimSplits(piece);
    var core := Trim(piece);
    if piece != "" {
      var before := piece[..|piece| - 1];
      assert Uncut(before, limits);
      UncutIsShort(before, limits);
      forall i | 0 <= i < |core| - 1 ensures !IsSentenceBreak(core[i]) && core[i] != '\n' {
        assert before[|lead| + i] == piece[|lead| + i] == core[i];
      }
    }
  }

  lemma {:induction false} EmitAllSpeakable(pieces: seq<string>, limits: Limits)
    requires limits.Valid()
    requires forall p :: p in pieces ==> IsPiece(p, limits) || Uncut(p, limits)
    ensures forall s :: s in EmitAll(pieces) ==> IsSpeakable(s, limits)
  {
    if pieces != [] {
      var n := |pieces| - 1;
      EmitAllSpeakable(pieces[..n], limits);
      PieceIsSpeakable(pieces[n], limits);
    }
  }

  /** Every segment is trimmed, non-empty, at most maxRunes long, and holds no break before its last rune. */
  lemma SegmentsAreSpeakable(text: string, limits: Limits)
    requires limits.Valid()
    ensures forall s :: s in Segments(text, limits) ==> IsSpeakable(s, limits)
  {
    var pieces, rest := SegmentsAreThePieces(text, limits);
    EmitAllSpeakable(pieces + [rest], limits);
  }

  lemma FlattenEmit(piece: string)
    ensures Flatten(Emit(piece)) == Trim(piece)
  {
    FlattenSnoc([], Trim(piece));
    assert [] + [Trim(piece)] == [Trim(piece)];
  }

  lemma LastPiece(pieces: seq<string>, before: seq<string>, last: string)
    requires pieces == before + [last]
    ensures Flatten(EmitAll(pieces)) == Flatten(EmitAll(before)) + Trim(last)
    ensures Flatten(pieces) == Flatten(before) + last
  {
    assert pieces[..|before|] == before;
    FlattenAppend(EmitAll(before), Emit(last));
    FlattenEmit(last);
    FlattenSnoc(before, last);
  }

  /** One more piece adds as much to what is said as to the text, when white space is left aside. */
  lemma ConservesSnoc(said: string, text: string, piece: string, said': string, text': string)
    requires NonSpace(said) == NonSpace(text) && said' == said + Trim(piece) && text' == text + piece
    ensures NonSpace(said') == NonSpace(text')
  {
    NonSpaceAppend(said, Trim(piece));
    NonSpaceAppend(text, piece);
    NonSpaceTrim(piece);
  }

  lemma {:induction false} EmitAllConserves(pieces: seq<string>)
    ensures NonSpace(Flatten(EmitAll(pieces))) == NonSpace(Flatten(pieces))
  {
    if pieces != [] {
      var before, last := pieces[..|pieces| - 1], pieces[|pieces| - 1];
      EmitAllConserves(before);
      LastPiece(pieces, before, last);
      ConservesSnoc(Flatten(EmitAll(before)), Flatten(before), last, Flatten(EmitAll(pieces)), Flatten(pieces));
    }
  }

  /** Nothing but white space is lost, and nothing changes place. */
  lemma SegmentsConserveText(text: string, limits: Limits)
    ensures NonSpace(Flatten(Segments(text, limits))) == NonSpace(text)
  {
    var pieces, rest := SegmentsAreThePieces(text, limits);
    EmitAllConserves(pieces + [rest]);
    FlattenSnoc(pieces, rest);
  }

  /** A reply yields no segment exactly when it is blank, which is the test made before flushing. */
  lemma NoSegmentIffBlank(text: string, limits: Limits)
    requires limits.Valid()
    ensures Segments(text, limits) == [] <==> Trim(text) == ""
  {
    SegmentsConserveText(text, limits);
    SegmentsAreSpeakable(text, limits);
    NonSpaceOfSpace(text);
    TrimBlank(text);
    var segments := Segments(text, limits);
    if segments != [] {
      var s := segments[0];
      assert s in segments && !IsSpace(s[0]);
      assert Flatten(segments)[0] == s[0];
      assert NonSpace(Flatten(segments)) != "";
    }
  }

  // ---- The two implementations ----

  /** realtimeTTSSegmenter: a buffer with its rune count, emptied at each cut. */
  class RealtimeTTSSegmenter {
    var buf: string
    var runeCount: nat

    constructor ()
      ensures Valid() && buf == ""
    {
      buf, runeCount := "", 0;
    }

    ghost predicate Valid()
      reads this
    {
      runeCount == |buf|
    }

    method Add(text: string, limits: Limits) returns (segments: seq<string>)
      requires Valid()
      modifies this
      ensures Valid()
      ensures Progress(segments, buf) == Feed(Progress([], old(buf)), text, limits)
    {
      segments := [];
      if text == "" {
        return;
      }
      for i := 0 to |text|
        invariant Valid()
        invariant Progress(segments, buf) == Feed(Progress([], old(buf)), text[..i], limits)
      {
        assert text[..i + 1][..i] == text[..i];
        var r := text[i];
        buf := buf + [r];
        runeCount := runeCount + 1;
        if IsSentenceBreak(r) || r == '\n' || runeCount >= limits.maxRunes
           || (runeCount >= limits.softMin && IsSoftBreak(r))
        {
          segments := AppendFlushed(segments);
        }
      }
      assert text[..|text|] == text;
    }

    method Flush() returns (segments: seq<string>)
      requires Valid()
      modifies this
      ensures Valid() && buf == "" && segments == Emit(old(buf))
    {
      segments := AppendFlushed([]);
    }

    /** appendFlushedRealtimeTTSSegment */
    method AppendFlushed(segments: seq<string>) returns (extended: seq<string>)
      requires Valid()
      modifies this
      ensures Valid() && buf == "" && extended == segments + Emit(old(buf))
    {
      extended := segments;
      var segment := Trim(buf);
      if segment != "" {
        extended := extended + [segment];
      }
      buf, runeCount := "", 0;
    }
  }

  lemma {:induction false} FeedKeepsEmitted(segments: seq<string>, buf: string, text: string, limits: Limits)
    ensures var p := Feed(Progress([], buf), text, limits);
            Feed(Progress(segments, buf), text, limits) == Progress(segments + p.segments, p.rest)
  {
    if text != "" {
      FeedKeepsEmitted(segments, buf, text[..|text| - 1], limits);
    }
  }

  /** The use made of the segmenter over one reply: each delta is added, then the rest is flushed. */
  method SegmentReply(deltas: seq<string>, limits: Limits) returns (segments: seq<string>)
    ensures segments == Segments(Flatten(deltas), limits)
  {
    var segmenter := new RealtimeTTSSegmenter();
    segments := [];
    for i := 0 to |deltas|
      invariant fresh(segmenter) && segmenter.Valid()
      invariant Progress(segments, segmenter.buf) == FeedDeltas(START, deltas[..i], limits)
    {
      assert deltas[..i + 1][..i] == deltas[..i];
      FeedKeepsEmitted(segments, segmenter.buf, deltas[i], limits);
      var more := segmenter.Add(deltas[i], limits);
      segments := segments + more;
    }
    assert deltas[..|deltas|] == deltas;
    SplitIntoDeltasIsIrrelevant(deltas, limits);
    var last := segmenter.Flush();
    segments := segments + last;
  }

  /**
   splitTTSSegments: the batch splitter yields what the streaming segmenter yields of the trimmed text
   when its soft threshold equals its maximum, so on trimmed text the two agree.
   */
  method SplitTTSSegments(rawText: string, maxRunes: int) returns (segments: seq<string>)
    ensures var m := if maxRunes <= 0 then 120 else maxRunes;
            segments == Segments(Trim(rawText), Limits(m, m))
  {
    var text := Trim(rawText);
    if text == "" {
      return [];
    }
    var most := if maxRunes <= 0 then DEFAULT_SEGMENT_MAX_RUNES else maxRunes;
    ghost var limits := Limits(most, most);
    segments := [];
    var builder, runeCount := "", 0;
    for i := 0 to |text|
      invariant runeCount == |builder|
      invariant Progress(segments, builder) == Feed(START, text[..i], limits)
    {
      assert text[..i + 1][..i] == text[..i];
      var r := text[i];
      builder := builder + [r];
      runeCount := runeCount + 1;
      if IsSentenceBreak(r) || r == '\n' || runeCount >= most {
        var segment := Trim(builder);
        if segment != "" {
          segments := segments + [segment];
        }
        builder, runeCount := "", 0;
      }
    }
    assert text[..|text|] == text;
    var segment := Trim(builder);
    if segment != "" {
      segments := segments + [segment];
    }
  }

  // ---- Blanks around a text ----

  lemma {:induction false} TrailingBlanksAreIdle(text: string, trail: string, limits: Limits)
    requires AllSpace(trail)
    ensures Segments(text + trail, limits) == Segments(text, limits)
  {
    if trail == "" {
      assert text + trail == text;
    } else {
      var n := |trail| - 1;
      var before, r := text + trail[..n], trail[n];
      TrailingBlanksAreIdle(text, trail[..n], limits);
      assert text + trail == before + [r];
      FeedLast(before + [r], before, r, limits);
      BlankPush(Feed(START, before, limits), r, limits);
    }
  }

  lemma BlankPush(p: Progress, r: char, limits: Limits)
    requires IsSpace(r)
    ensures var next := Push(p, r, limits); next.segments + Emit(next.rest) == p.segments + Emit(p.rest)
  {
    TrimForgetsTrail(p.rest, r);
    assert Emit("") == [];
  }

  lemma LeadingBlanksAreIdle(lead: string, text: string, limits: Limits)
    requires limits.Valid() && AllSpace(lead) && Feed(START, lead, limits).rest == ""
    ensures Segments(lead + text, limits) == Segments(text, limits)
  {
    TrimBlank(lead);
    NoSegmentIffBlank(lead, limits);
    FeedAppend(START, lead, text, limits);
  }

  /**
   So the streaming segmenter makes of a raw reply what the batch splitter makes of the trimmed one, whatever blanks
   follow it, if those before it leave nothing in the buffer, as when the last of them is a line break.
   */
  lemma BlanksAroundAreIdle(text: string, lead: string, trail: string, limits: Limits)
    requires limits.Valid() && text == lead + Trim(text) + trail && AllSpace(lead) && AllSpace(trail)
    requires Feed(START, lead, limits).rest == ""
    ensures Segments(text, limits) == Segments(Trim(text), limits)
  {
    TrailingBlanksAreIdle(lead + Trim(text), trail, limits);
    LeadingBlanksAreIdle(lead, Trim(text), limits);
  }

  lemma LineBreakEmptiesTheBuffer(lead: string, limits: Limits)
    requires lead != "" && lead[|lead| - 1] == '\n'
    ensures Feed(START, lead, limits).rest == ""
  {
  }

  ghost predicate Plain(r: char) {
    !IsSpace(r) && !IsSentenceBreak(r) && !IsSoftBreak(r)
  }

  /** The condition is needed: a leading blank left in the buffer counts towards the streaming maximum. */
  lemma LeadingBlankCounts(blank: char, a: char, b: char, limits: Limits)
    requires limits == Limits(2, 2)
    requires IsSpace(blank) && blank != '\n' && Plain(a) && Plain(b)
    ensures Segments([blank, a, b], limits) == [[a], [b]]
    ensures Segments(Trim([blank, a, b]), limits) == [[a, b]]
  {
    BlankFirst(blank, a, b, limits);
    TrimUnique([blank, a, b], [blank], [a, b], []);
    NoBlank(a, b, limits);
  }

  lemma OnePiece(piece: string, rest: string, limits: Limits)
    requires IsPiece(piece, limits) && Uncut(rest, limits)
    ensures IsCutting(piece + rest, [piece], rest, limits)
  {
    FlattenSnoc([], piece);
    assert [] + [piece] == [piece];
  }

  lemma BlankFirst(blank: char, a: char, b: char, limits: Limits)
    requires limits == Limits(2, 2)
    requires IsSpace(blank) && blank != '\n' && Plain(a) && Plain(b)
    ensures Segments([blank, a, b], limits) == [[a], [b]]
  {
    var text, first, last := [blank, a, b], [blank, a], [b];
    BlankPiece(blank, a, limits);
    TrimIdempotent(last);
    OnePiece(first, last, limits);
    assert first + last == text;
    var pieces, rest := SegmentsAreThePieces(text, limits);
    CuttingIsUnique(text, pieces, rest, [first], last, limits);
    EmitTwo(first, last);
  }

  lemma BlankPiece(blank: char, a: char, limits: Limits)
    requires limits == Limits(2, 2)
    requires IsSpace(blank) && blank != '\n' && Plain(a)
    ensures IsPiece([blank, a], limits) && Emit([blank, a]) == [[a]]
  {
    assert [blank, a][..1] == [blank];
    TrimUnique([blank, a], [blank], [a], []);
  }

  lemma NoBlank(a: char, b: char, limits: Limits)
    requires limits == Limits(2, 2)
    requires Plain(a) && Plain(b)
    ensures Segments([a, b], limits) == [[a, b]]
  {
    var text := [a, b];
    var pieces, rest := SegmentsAreThePieces(text, limits);
    assert text[..1] == [a];
    assert IsPiece(text, limits);
    OnePiece(text, [], limits);
    assert text + [] == text;
    CuttingIsUnique(text, pieces, rest, [text], [], limits);
    EmitTwo(text, []);
  }

  lemma EmitTwo(a: string, b: string)
    ensures EmitAll([a] + [b]) == Emit(a) + Emit(b)
  {
    assert ([a] + [b])[..1] == [a] && [a][..0] == [];
    assert EmitAll([a]) == EmitAll([]) + Emit(a);
  }
}
