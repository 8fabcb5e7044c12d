/**
 What a conversation summary says: one line for each turn merged into it, oldest first, as far as the limits leave it.
 internal/voicews/session.go:1897-1921 and 2222-2231.
 */
module Summaries {
  import opened Common
  import opened Text
  import opened Compression

  /** The first n elements, or all if there are not so many. */
  ghost predicate IsFirst(part: string, whole: string, n: int) {
    part <= whole && |part| == if n <= 0 then 0 else Min(n, |whole|)
  }

  /** The line of a turn: its stamp, and at most 220 runes of what each side said. */
  ghost predicate Quotes(line: string, turn: Turn) {
    exists user, assistant ::
      && IsFirst(user, Trim(turn.userText), 220) && IsFirst(assistant, Trim(turn.assistantText), 220)
      && line == "- " + turn.stamp + " user: " + user + " assistant: " + assistant
  }

  ghost predicate AllQuote(lines: seq<string>, turns: seq<Turn>) {
    |lines| == |turns| && forall k :: 0 <= k < |turns| ==> Quotes(lines[k], turns[k])
  }

  /** Lines one below the other, each after a line break, and then without the first break. */
  function Below(lines: seq<string>): string {
    if lines == [] then "" else Below(lines[..|lines| - 1]) + "\n" + lines[|lines| - 1]
  }

  function Page(lines: seq<string>): string {
    if lines == [] then "" else Below(lines)[1..]
  }

  lemma {:induction false} BelowBegins(first: string, lines: seq<string>)
    ensures Below([first] + lines) == "\n" + first + Below(lines)
  {
    if lines == [] {
      assert [first][..0] == [] && [first] + [] == [first];
      assert Below([first]) == "" + "\n" + first;
    } else {
      var n, all := |lines| - 1, [first] + lines;
      BelowBegins(first, lines[..n]);
      assert all[..|all| - 1] == [first] + lines[..n];
    }
  }

  lemma {:induction false} JoinIsPage(lines: seq<string>)
    ensures Join(lines, "\n") == Page(lines)
  {
    if |lines| == 1 {
      BelowBegins(lines[0], []);
      assert lines == [lines[0]] + [];
    } else if |lines| > 1 {
      JoinIsPage(lines[1..]);
      BelowBegins(lines[0], lines[1..]);
      assert lines == [lines[0]] + lines[1..];
      BelowBegins(lines[1], lines[2..]);
      assert lines[1..] == [lines[1]] + lines[2..];
    }
  }

  // ---- One merge ----

  lemma LineQuotes(turn: Turn)
    ensures Quotes(SummaryLine(turn), turn)
  {
    var user, assistant := TruncateRunes(Trim(turn.userText), 220), TruncateRunes(Trim(turn.assistantText), 220);
    assert IsFirst(user, Trim(turn.userText), 220) && IsFirst(assistant, Trim(turn.assistantText), 220);
  }

  lemma {:induction false} LinesQuote(turns: seq<Turn>)
    ensures AllQuote(SummaryLines(turns), turns)
  {
    if turns != [] {
      LinesQuote(turns[..|turns| - 1]);
      LineQuotes(turns[|turns| - 1]);
    }
  }

  /** The text that a merge makes before it is cut: the old summary, if it is not blank, and the new lines below it. */
  function Extended(existing: string, lines: seq<string>): string {
    if Trim(existing) == "" then Page(lines) else Trim(existing) + Below(lines)
  }

  /**
   What a merge makes is the beginning, up to the limit, of the old summary with a line below it for each turn, in
   order.
   */
  lemma MergeTellsTheTurns(existing: string, turns: seq<Turn>, limit: int) returns (lines: seq<string>)
    ensures AllQuote(lines, turns)
    ensures IsFirst(MergedSummary(existing, turns, limit), Extended(existing, lines), limit)
  {
    lines := SummaryLines(turns);
    LinesQuote(turns);
    if Trim(existing) != "" {
      JoinIsPage([Trim(existing)] + lines);
      BelowBegins(Trim(existing), lines);
    } else {
      JoinIsPage(lines);
      assert [] + lines == lines;
    }
  }

  /**
   A turn merged into a summary that is not blank leaves something of its line if and only if the limit is more than
   a line break away; so a full summary takes in nothing more, and it is the newest turns that are lost.
   */
  lemma MergeLeavesATraceIff(existing: string, turn: Turn, limit: int)
    requires Trim(existing) != ""
    ensures var merged, former := MergedSummary(existing, [turn], limit), Trim(existing);
            && (|merged| > |former| + 1 <==> limit > |former| + 1)
            && (0 <= limit <= |former| ==> merged == former[..limit])
  {
    var lines := MergeTellsTheTurns(existing, [turn], limit);
    assert lines == [] + [lines[0]];
    BelowBegins(lines[0], []);
    assert Quotes(lines[0], turn);
    var former := Trim(existing);
    var all := Extended(existing, lines);
    assert all == former + ("\n" + lines[0] + Below([]));
    if 0 <= limit <= |former| {
      assert all[..limit] == former[..limit];
    }
  }

  // ---- A history of merges ----

  /** What is left of the lines of some turns, one piece for each; empty pieces leave no line. */
  function Shown(pieces: seq<string>): string {
    if pieces == [] then ""
    else
      var before, last := Shown(pieces[..|pieces| - 1]), pieces[|pieces| - 1];
      if last == "" then before else if before == "" then last else before + "\n" + last
  }

  ghost predicate BeginsLine(piece: string, turn: Turn) {
    exists line :: Quotes(line, turn) && piece <= line
  }

  ghost predicate AllBegin(pieces: seq<string>, turns: seq<Turn>) {
    |pieces| == |turns| && forall k :: 0 <= k < |turns| ==> BeginsLine(pieces[k], turns[k])
  }

  /** The pieces, each below the one before; a cut may leave a last line break. */
  ghost predicate Shows(summary: string, pieces: seq<string>) {
    summary == Shown(pieces) || summary == Shown(pieces) + "\n"
  }

  /** The summary is made of the beginnings of the lines of these turns, in order, and of nothing else. */
  ghost predicate Tells(summary: string, turns: seq<Turn>) {
    exists pieces :: AllBegin(pieces, turns) && Shows(summary, pieces)
  }

  lemma LinesBeginWithADash(piece: string, turn: Turn)
    requires BeginsLine(piece, turn) && piece != ""
    ensures piece[0] == '-'
  {
  }

  lemma ShownSnoc(pieces: seq<string>, last: string)
    ensures Shown(pieces + [last])
            == if last == "" then Shown(pieces) else if Shown(pieces) == "" then last else Shown(pieces) + "\n" + last
  {
    assert (pieces + [last])[..|pieces|] == pieces;
  }

  lemma NothingBegins(turn: Turn)
    ensures BeginsLine("", turn)
  {
    LineQuotes(turn);
    assert "" <= SummaryLine(turn);
  }

  lemma AllBeginSnoc(pieces: seq<string>, turns: seq<Turn>, last: string)
    requires turns != [] && AllBegin(pieces, turns[..|turns| - 1]) && BeginsLine(last, turns[|turns| - 1])
    ensures AllBegin(pieces + [last], turns)
  {
  }

  /** Cutting a summary short cuts the lines from the last one up. */
  lemma {:induction false} CutShows(text: string, pieces: seq<string>, turns: seq<Turn>, short: string)
    returns (left: seq<string>)
    requires AllBegin(pieces, turns) && Shows(text, pieces) && short <= text
    ensures AllBegin(left, turns) && Shows(short, left)
    ensures short == text ==> left == pieces
    decreases |pieces|
  {
    if short == text || pieces == [] {
      left := pieces;
    } else {
      var n := |pieces| - 1;
      var before, last := Shown(pieces[..n]), pieces[n];
      assert pieces == pieces[..n] + [last];
      if |short| <= |before| {
        assert short <= before by {
          assert before <= text;
        }
        var shorter := CutShows(before, pieces[..n], turns[..n], short);
        left := shorter + [""];
        NothingBegins(turns[n]);
        AllBeginSnoc(shorter, turns, "");
        ShownSnoc(shorter, "");
      } else {
        left := CutLast(text, pieces[..n], turns, last, short);
      }
    }
  }

  lemma CutLast(text: string, before: seq<string>, turns: seq<Turn>, last: string, short: string)
    returns (left: seq<string>)
    requires turns != [] && AllBegin(before, turns[..|turns| - 1]) && BeginsLine(last, turns[|turns| - 1])
    requires Shows(text, before + [last]) && short < text && |short| > |Shown(before)|
    ensures AllBegin(left, turns) && Shows(short, left)
  {
    var above := Shown(before);
    ShownSnoc(before, last);
    var at := if above == "" then 0 else |above| + 1;
    var rest := if |short| > at then short[at..] else "";
    var whole := Shown(before + [last]);
    if last == "" {
      rest := "";
    } else if |rest| > |last| {
      rest := last;
    } else {
      assert whole[at..] == last;
      assert rest <= last;
    }
    BeginsBegins(rest, last, turns[|turns| - 1]);
    left := before + [rest];
    AllBeginSnoc(before, turns, rest);
    ShownSnoc(before, rest);
    ShortShows(text, above, last, short, rest);
  }

  lemma BeginsBegins(shorter: string, piece: string, turn: Turn)
    requires BeginsLine(piece, turn) && shorter <= piece
    ensures BeginsLine(shorter, turn)
  {
    var line :| Quotes(line, turn) && piece <= line;
    assert shorter <= line;
  }

  lemma ShortShows(text: string, above: string, last: string, short: string, rest: string)
    requires var whole := if last == "" then above else if above == "" then last else above + "\n" + last;
             text == whole || text == whole + "\n"
    requires short < text && |short| > |above|
    requires var at := if above == "" then 0 else |above| + 1;
             rest == if last == "" || |short| <= at then "" else if |short| - at > |last| then last else short[at..]
    ensures var shown := if rest == "" then above else if above == "" then rest else above + "\n" + rest;
            short == shown || short == shown + "\n"
  {
    assert short == text[..|short|];
    if last != "" && above != "" {
      var k := |short| - |above| - 1;
      assert text[..|above| + 1] == above + "\n";
      if 0 < k <= |last| {
        assert short == above + "\n" + short[|above| + 1..];
      }
    }
  }

  /** Blanks at the end of a summary belong to its last line. */
  lemma {:induction false} TrimShows(text: string, pieces: seq<string>, turns: seq<Turn>) returns (left: seq<string>)
    requires AllBegin(pieces, turns) && Shows(text, pieces)
    ensures AllBegin(left, turns) && Trim(text) == Shown(left)
    ensures forall k :: 0 <= k < |turns| ==> left[k] == pieces[k] || left[k] == TrimRight(pieces[k])
  {
    if Shown(pieces) == "" {
      left := pieces;
      TrimBlank(text);
    } else {
      var n := |pieces| - 1;
      var last := pieces[n];
      assert pieces == pieces[..n] + [last];
      if last == "" {
        var before := TrimShows(text, pieces[..n], turns[..n]);
        left := before + [""];
        AllBeginSnoc(before, turns, "");
        ShownSnoc(before, "");
      } else {
        var trail := TrimRightSplits(last);
        LinesBeginWithADash(last, turns[n]);
        assert trail != "" ==> IsSpace(trail[0]);
        left := pieces[..n] + [TrimRight(last)];
        BeginsBegins(TrimRight(last), last, turns[n]);
        AllBeginSnoc(pieces[..n], turns, TrimRight(last));
        ShownSnoc(pieces[..n], TrimRight(last));
        ShownBeginsWithADash(pieces[..n], turns[..n]);
        TrimsTo(text, Shown(pieces[..n]), last, trail);
      }
    }
  }

  lemma {:induction false} ShownBeginsWithADash(pieces: seq<string>, turns: seq<Turn>)
    requires AllBegin(pieces, turns)
    ensures Shown(pieces) == "" || Shown(pieces)[0] == '-'
  {
    if pieces != [] {
      var n := |pieces| - 1;
      ShownBeginsWithADash(pieces[..n], turns[..n]);
      if pieces[n] != "" {
        LinesBeginWithADash(pieces[n], turns[n]);
      }
    }
  }

  lemma TrimsTo(text: string, above: string, last: string, trail: string)
    requires last == TrimRight(last) + trail && AllSpace(trail) && TrimRight(last) != ""
    requires last[0] == '-' && !IsSpace(TrimRight(last)[|TrimRight(last)| - 1]) && (above == "" || above[0] == '-')
    requires var whole := if above == "" then last else above + "\n" + last; text == whole || text == whole + "\n"
    ensures Trim(text) == if above == "" then TrimRight(last) else above + "\n" + TrimRight(last)
  {
    var upTo := if above == "" then "" else above + "\n";
    TrimsAt(text, upTo, TrimRight(last), trail, if |text| == |upTo + last| then "" else "\n");
  }

  lemma TrimsAt(text: string, upTo: string, kept: string, trail: string, end: string)
    requires text == upTo + (kept + trail) + end && AllSpace(trail) && (end == "" || end == "\n")
    requires kept != "" && kept[0] == '-' && !IsSpace(kept[|kept| - 1]) && (upTo == "" || upTo[0] == '-')
    ensures Trim(text) == upTo + kept
  {
    assert text == "" + (upTo + kept) + (trail + end);
    TrimUnique(text, "", upTo + kept, trail + end);
  }

  lemma {:induction false} WholeLinesShow(pieces: seq<string>, lines: seq<string>)
    requires forall k :: 0 <= k < |lines| ==> lines[k] != ""
    ensures Shown(pieces + lines)
            == if Shown(pieces) == "" then Page(lines) else Shown(pieces) + Below(lines)
  {
    if lines == [] {
      assert pieces + lines == pieces;
    } else {
      var n := |lines| - 1;
      WholeLinesShow(pieces, lines[..n]);
      assert pieces + lines == (pieces + lines[..n]) + [lines[n]];
      ShownSnoc(pieces + lines[..n], lines[n]);
      OneLineMore(Shown(pieces), Below(lines[..n]), lines[n]);
      PageBegins(lines[..n]);
    }
  }

  lemma OneLineMore(above: string, below: string, line: string)
    ensures above + (below + "\n" + line) == above + below + "\n" + line
    ensures below != "" ==> (below + "\n" + line)[1..] == below[1..] + "\n" + line
    ensures ("" + "\n" + line)[1..] == line
  {
  }

  lemma PageBegins(lines: seq<string>)
    requires forall k :: 0 <= k < |lines| ==> lines[k] != ""
    ensures lines != [] ==> Page(lines) != "" && Below(lines) != ""
  {
  }

  lemma AllBeginAppends(pieces: seq<string>, turns: seq<Turn>, lines: seq<string>, batch: seq<Turn>)
    requires AllBegin(pieces, turns) && AllQuote(lines, batch)
    ensures AllBegin(pieces + lines, turns + batch)
    ensures forall k :: 0 <= k < |lines| ==> lines[k] != ""
  {
    forall k | 0 <= k < |batch| ensures BeginsLine(lines[k], batch[k]) && lines[k] != "" {
      assert Quotes(lines[k], batch[k]);
    }
  }

  /** A merge adds the lines of its turns to what the summary tells, and then cuts. */
  lemma MergeShows(summary: string, pieces: seq<string>, turns: seq<Turn>, batch: seq<Turn>, limit: int)
    returns (left: seq<string>)
    requires AllBegin(pieces, turns) && Shows(summary, pieces)
    ensures AllBegin(left, turns + batch) && Shows(MergedSummary(summary, batch, limit), left)
  {
    var trimmed := TrimShows(summary, pieces, turns);
    var lines := MergeTellsTheTurns(summary, batch, limit);
    AllBeginAppends(trimmed, turns, lines, batch);
    WholeLinesShow(trimmed, lines);
    left := CutShows(Extended(summary, lines), trimmed + lines, turns + batch, MergedSummary(summary, batch, limit));
  }

  /**
   Whatever is merged and cut, in any order and with any limits: the summary is made of the beginnings of the lines of
   the merged turns, one below the other in the order of merging, and of nothing else.
   */
  lemma {:induction false} HistoryIsTold(ops: seq<SummaryOp>)
    ensures Tells(Replay("", ops), MergedTurns(ops))
  {
    if ops == [] {
      assert AllBegin([], []) && Shows("", []);
    } else {
      var before, op := ops[..|ops| - 1], ops[|ops| - 1];
      HistoryIsTold(before);
      var pieces :| AllBegin(pieces, MergedTurns(before)) && Shows(Replay("", before), pieces);
      match op
      case Merge(batch, limit) =>
        var left := MergeShows(Replay("", before), pieces, MergedTurns(before), batch, limit);
      case Shorten(limit) =>
        var left := CutShows(Replay("", before), pieces, MergedTurns(before), TruncateRunes(Replay("", before), limit));
        assert MergedTurns(ops) == MergedTurns(before);
    }
  }

  // ---- Histories that never meet a limit ----

  /** All of each line is there, but perhaps for blanks at its end. */
  ghost predicate Whole(pieces: seq<string>, lines: seq<string>) {
    |pieces| == |lines| && forall k :: 0 <= k < |lines| ==> TrimRight(lines[k]) <= pieces[k] <= lines[k]
  }

  ghost predicate HasRoom(ops: seq<SummaryOp>, size: nat) {
    forall k :: 0 <= k < |ops| ==> size <= ops[k].limit
  }

  lemma OneWayToQuote(a: string, b: string, turn: Turn)
    requires Quotes(a, turn) && Quotes(b, turn)
    ensures a == b
  {
  }

  lemma TrimRightOfWhole(piece: string, line: string)
    requires TrimRight(line) <= piece <= line
    ensures TrimRight(piece) == TrimRight(line)
  {
    var t := TrimRightSplits(line);
    TrimRightUnique(piece, TrimRight(line), piece[|TrimRight(line)|..]);
  }

  lemma {:induction false} TrimRightUnique(s: string, core: string, trail: string)
    requires s == core + trail && AllSpace(trail) && (core == "" || !IsSpace(core[|core| - 1]))
    ensures TrimRight(s) == core
  {
    if trail != "" {
      assert s[..|s| - 1] == core + trail[..|trail| - 1];
      TrimRightUnique(s[..|s| - 1], core, trail[..|trail| - 1]);
    }
  }

  lemma {:induction false} ShownIsNoLonger(pieces: seq<string>, lines: seq<string>)
    requires |pieces| == |lines| && forall k :: 0 <= k < |lines| ==> pieces[k] <= lines[k]
    ensures |Shown(pieces)| <= |Below(lines)|
  {
    if pieces != [] {
      var n := |pieces| - 1;
      ShownIsNoLonger(pieces[..n], lines[..n]);
    }
  }

  lemma WholeAppends(pieces: seq<string>, former: seq<string>, more: seq<string>)
    requires Whole(pieces, former)
    ensures Whole(pieces + more, former + more)
  {
    forall k | 0 <= k < |more| ensures TrimRight(more[k]) <= more[k] {
      var t := TrimRightSplits(more[k]);
    }
  }

  lemma {:induction false} BelowGrows(a: seq<string>, b: seq<string>)
    ensures |Below(a)| <= |Below(a + b)|
  {
    if b == [] {
      assert a + b == a;
    } else {
      BelowGrows(a, b[..|b| - 1]);
      assert (a + b)[..|a + b| - 1] == a + b[..|b| - 1];
    }
  }

  lemma RoomyMerge(summary: string, pieces: seq<string>, former: seq<string>, turns: seq<Turn>, batch: seq<Turn>,
                   lines: seq<string>, limit: int) returns (left: seq<string>)
    requires AllBegin(pieces, turns) && summary == Shown(pieces) && Whole(pieces, former)
    requires AllQuote(lines, batch) && |Below(former + lines)| <= limit
    ensures Whole(left, former + lines) && AllBegin(left, turns + batch)
    ensures MergedSummary(summary, batch, limit) == Shown(left)
  {
    var trimmed := TrimShows(summary, pieces, turns);
    forall k | 0 <= k < |former| ensures TrimRight(former[k]) <= trimmed[k] <= former[k] {
      TrimRightOfWhole(pieces[k], former[k]);
    }
    var told := MergeTellsTheTurns(summary, batch, limit);
    forall k | 0 <= k < |batch| ensures told[k] == lines[k] {
      OneWayToQuote(told[k], lines[k], batch[k]);
    }
    assert told == lines;
    AllBeginAppends(trimmed, turns, lines, batch);
    WholeLinesShow(trimmed, lines);
    left := trimmed + lines;
    WholeAppends(trimmed, former, lines);
    ShownIsNoLonger(left, former + lines);
  }

  lemma QuotesSplit(lines: seq<string>, a: seq<Turn>, b: seq<Turn>)
    requires AllQuote(lines, a + b)
    ensures var former, latter := lines[..|a|], lines[|a|..];
            && AllQuote(former, a) && AllQuote(latter, b) && former + latter == lines
            && |Below(former)| <= |Below(lines)|
  {
    var former, latter := lines[..|a|], lines[|a|..];
    assert former + latter == lines;
    BelowGrows(former, latter);
    forall k | 0 <= k < |a| ensures Quotes(former[k], a[k]) {
      assert Quotes(lines[k], (a + b)[k]);
    }
    forall k | 0 <= k < |b| ensures Quotes(latter[k], b[k]) {
      assert Quotes(lines[|a| + k], (a + b)[|a| + k]);
    }
  }

  /** As long as all the lines have room within every limit, none of them is cut. */
  lemma {:induction false} RoomyHistoryIsTold(ops: seq<SummaryOp>, lines: seq<string>) returns (pieces: seq<string>)
    requires AllQuote(lines, MergedTurns(ops)) && HasRoom(ops, |Below(lines)|)
    ensures Whole(pieces, lines) && Replay("", ops) == Shown(pieces) && AllBegin(pieces, MergedTurns(ops))
  {
    if ops == [] {
      pieces := [];
    } else {
      var before, op := ops[..|ops| - 1], ops[|ops| - 1];
      var turns, batch := MergedTurns(before), if op.Merge? then op.batch else [];
      QuotesSplit(lines, turns, batch);
      var former := lines[..|turns|];
      assert HasRoom(before, |Below(former)|) && op.limit >= |Below(lines)|;
      pieces := RoomyHistoryIsTold(before, former);
      pieces := RoomyStep(Replay("", before), pieces, former, turns, op, lines[|turns|..]);
    }
  }

  lemma RoomyStep(summary: string, pieces: seq<string>, former: seq<string>, turns: seq<Turn>, op: SummaryOp,
                  latter: seq<string>) returns (left: seq<string>)
    requires AllBegin(pieces, turns) && summary == Shown(pieces) && Whole(pieces, former)
    requires AllQuote(latter, if op.Merge? then op.batch else []) && |Below(former + latter)| <= op.limit
    ensures var made := match op
                        case Merge(batch, limit) => MergedSummary(summary, batch, limit)
                        case Shorten(limit) => TruncateRunes(summary, limit);
            made == Shown(left)
    ensures Whole(left, former + latter) && AllBegin(left, turns + if op.Merge? then op.batch else [])
  {
    match op
    case Merge(batch, limit) => left := RoomyMerge(summary, pieces, former, turns, batch, latter, limit);
    case Shorten(limit) =>
      left := pieces;
      assert former + latter == former && turns + [] == turns;
      ShownIsNoLonger(pieces, former);
  }
}
