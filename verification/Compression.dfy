/**
 Compression of a conversation: recent turns are kept whole, older ones are folded into a running summary.
 internal/voicews/session.go:1875-1921 and 2222-2231.

 Time is a count of nanoseconds with 0 for Go's zero time. A turn carries the rendering of its own time
 stamp, as the summary prints it.
 */
module Compression {
  import opened Common
  import opened Text
  import opened Tokens

  /** Slicing off all but the last recentTurnLimit turns would fail on a negative limit. */
  type TurnOptions = o: Options | o.recentTurnLimit >= 0 witness Options(2048, 70, 80, 768, 6, 180 * SECOND, 2400)

  datatype Turn = Turn(userText: string, assistantText: string, at: int, stamp: string)

  function TurnMessages(turn: Turn): seq<Message> {
    [Message(User, turn.userText), Message(Assistant, turn.assistantText)]
  }

  function TurnsTokens(turns: seq<Turn>): nat {
    if turns == [] then 0
    else TurnsTokens(turns[..|turns| - 1]) + EstimateMessages(TurnMessages(turns[|turns| - 1]))
  }

  /** estimateConversationMemoryTokens */
  function TotalTokens(summary: string, turns: seq<Turn>): nat {
    EstimateTokens(summary) + TurnsTokens(turns)
  }

  /** The user's and the assistant's text of each turn, in order. */
  ghost predicate SaidIn(messages: seq<Message>, turns: seq<Turn>) {
    && |messages| == 2 * |turns|
    && forall k :: 0 <= k < |turns| ==>
         messages[2 * k] == Message(User, turns[k].userText) && messages[2 * k + 1] == Message(Assistant, turns[k].assistantText)
  }

  lemma {:induction false} TurnsCountWhatWasSaid(turns: seq<Turn>) returns (messages: seq<Message>)
    ensures SaidIn(messages, turns) && TurnsTokens(turns) == EstimateMessages(messages)
  {
    messages := [];
    if turns != [] {
      var n := |turns| - 1;
      var before := TurnsCountWhatWasSaid(turns[..n]);
      EstimateMessagesAppend(before, TurnMessages(turns[n]));
      messages := before + TurnMessages(turns[n]);
      SaidMore(before, turns[..n], turns[n]);
      assert turns[..n] + [turns[n]] == turns;
    }
  }

  lemma SaidMore(before: seq<Message>, turns: seq<Turn>, turn: Turn)
    requires SaidIn(before, turns)
    ensures SaidIn(before + TurnMessages(turn), turns + [turn])
  {
    var messages, longer := before + TurnMessages(turn), turns + [turn];
    forall k | 0 <= k < |longer|
      ensures messages[2 * k] == Message(User, longer[k].userText)
      ensures messages[2 * k + 1] == Message(Assistant, longer[k].assistantText)
    {
      if k < |turns| {
        assert messages[2 * k] == before[2 * k] && messages[2 * k + 1] == before[2 * k + 1];
      }
    }
  }

  /** The total counts the summary and everything that was said; so it covers the text at four runes a token. */
  lemma TotalCountsEverything(summary: string, turns: seq<Turn>) returns (messages: seq<Message>)
    ensures SaidIn(messages, turns)
    ensures TotalTokens(summary, turns) == EstimateTokens(summary) + EstimateMessages(messages)
    ensures |Trim(summary)| + RunesOf(messages) <= 4 * TotalTokens(summary, turns)
  {
    messages := TurnsCountWhatWasSaid(turns);
    EstimateCountsRunes(summary);
    CountCoversTheText(messages);
  }

  const QUOTED_RUNES := 220

  function SummaryLine(turn: Turn): string {
    "- " + turn.stamp
    + " user: " + TruncateRunes(Trim(turn.userText), QUOTED_RUNES)
    + " assistant: " + TruncateRunes(Trim(turn.assistantText), QUOTED_RUNES)
  }

  function SummaryLines(turns: seq<Turn>): seq<string> {
    if turns == [] then [] else SummaryLines(turns[..|turns| - 1]) + [SummaryLine(turns[|turns| - 1])]
  }

  /** The old summary and one line for each turn, cut off at the limit. */
  function MergedSummary(existing: string, turns: seq<Turn>, limit: int): string {
    TruncateRunes(Join((if Trim(existing) != "" then [Trim(existing)] else []) + SummaryLines(turns), "\n"), limit)
  }

  /** The loop of mergeConversationSummary. */
  method MergeConversationSummary(existing: string, turns: seq<Turn>, limit: int) returns (summary: string)
    ensures summary == MergedSummary(existing, turns, limit)
    ensures |summary| <= Max(0, limit)
  {
    var lines := [];
    if Trim(existing) != "" {
      lines := lines + [Trim(existing)];
    }
    ghost var first := lines;
    for i := 0 to |turns|
      invariant lines == first + SummaryLines(turns[..i])
    {
      assert turns[..i + 1][..i] == turns[..i];
      lines := lines + [SummaryLine(turns[i])];
    }
    assert turns[..|turns|] == turns;
    summary := TruncateRunes(Join(lines, "\n"), limit);
  }

  // ---- The history of a summary ----

  /** What may happen to a summary: turns are merged into it, or it is cut short. */
  datatype SummaryOp = Merge(batch: seq<Turn>, limit: int) | Shorten(limit: int)

  /** The summary that a history of operations makes of the given one. */
  function Replay(summary: string, ops: seq<SummaryOp>): string {
    if ops == [] then summary
    else
      var before := Replay(summary, ops[..|ops| - 1]);
      match ops[|ops| - 1]
      case Merge(batch, limit) => MergedSummary(before, batch, limit)
      case Shorten(limit) => TruncateRunes(before, limit)
  }

  /** The turns merged by a history, in the order of merging. */
  function MergedTurns(ops: seq<SummaryOp>): seq<Turn> {
    if ops == [] then []
    else
      MergedTurns(ops[..|ops| - 1])
      + match ops[|ops| - 1] { case Merge(batch, _) => batch case Shorten(_) => [] }
  }

  lemma {:induction false} ReplayAppend(summary: string, a: seq<SummaryOp>, b: seq<SummaryOp>)
    ensures Replay(summary, a + b) == Replay(Replay(summary, a), b)
    ensures MergedTurns(a + b) == MergedTurns(a) + MergedTurns(b)
  {
    if b == [] {
      assert a + b == a;
    } else {
      assert (a + b)[..|a + b| - 1] == a + b[..|b| - 1];
      ReplayAppend(summary, a, b[..|b| - 1]);
    }
  }

  // ---- Compression as a function ----

  /** A memory under compression, with the operations performed so far. */
  datatype Work = Work(summary: string, turns: seq<Turn>, ops: seq<SummaryOp>)

  function Evict(w: Work, n: nat, opts: TurnOptions): Work
    requires n <= |w.turns|
  {
    Work(MergedSummary(w.summary, w.turns[..n], opts.summaryRuneLimit), w.turns[n..],
         w.ops + [Merge(w.turns[..n], opts.summaryRuneLimit)])
  }

  function CutToLimit(w: Work, opts: TurnOptions): Work
  {
    if |w.turns| > opts.recentTurnLimit then Evict(w, |w.turns| - opts.recentTurnLimit, opts) else w
  }

  predicate OverBudget(w: Work, opts: TurnOptions) {
    TotalTokens(w.summary, w.turns) > opts.Threshold() && |w.turns| > 1
  }

  function EvictOverBudget(w: Work, opts: TurnOptions): Work
    decreases |w.turns|
  {
    if OverBudget(w, opts) then EvictOverBudget(Evict(w, 1, opts), opts) else w
  }

  function ShortenSummary(w: Work, opts: TurnOptions): Work {
    if EstimateTokens(w.summary) > opts.HalfThreshold()
    then Work(TruncateRunes(w.summary, opts.HalfSummary()), w.turns, w.ops + [Shorten(opts.HalfSummary())])
    else w
  }

  function Compressed(summary: string, turns: seq<Turn>, opts: TurnOptions): Work
  {
    ShortenSummary(EvictOverBudget(CutToLimit(Work(summary, turns, []), opts), opts), opts)
  }

  /** The work has lost nothing: what was merged, then what is left, is the input. */
  ghost predicate Conserves(w: Work, summary: string, turns: seq<Turn>) {
    && MergedTurns(w.ops) + w.turns == turns
    && Replay(summary, w.ops) == w.summary
  }

  lemma EvictConserves(w: Work, n: nat, opts: TurnOptions, summary: string, turns: seq<Turn>)
    requires n <= |w.turns| && Conserves(w, summary, turns)
    ensures Conserves(Evict(w, n, opts), summary, turns)
  {
    var op := Merge(w.turns[..n], opts.summaryRuneLimit);
    assert (w.ops + [op])[..|w.ops|] == w.ops;
    assert w.turns[..n] + w.turns[n..] == w.turns;
  }

  lemma {:induction false} EvictOverBudgetKeeps(w: Work, opts: TurnOptions, summary: string, turns: seq<Turn>)
    requires Conserves(w, summary, turns)
    ensures var r := EvictOverBudget(w, opts);
            && Conserves(r, summary, turns) && !OverBudget(r, opts)
            && |r.turns| <= |w.turns| && (|w.turns| >= 1 ==> |r.turns| >= 1)
            && (OverBudget(w, opts) || r == w)
    decreases |w.turns|
  {
    if OverBudget(w, opts) {
      EvictConserves(w, 1, opts, summary, turns);
      EvictOverBudgetKeeps(Evict(w, 1, opts), opts, summary, turns);
    }
  }

  lemma ShortenConserves(w: Work, opts: TurnOptions, summary: string, turns: seq<Turn>)
    requires Conserves(w, summary, turns)
    ensures var r := ShortenSummary(w, opts);
            && Conserves(r, summary, turns)
            && r.turns == w.turns
            && EstimateTokens(r.summary) <= EstimateTokens(w.summary)
            && EstimateTokens(r.summary) <= Max(opts.HalfThreshold(), Max(0, opts.HalfSummary()))
  {
    var op := Shorten(opts.HalfSummary());
    assert (w.ops + [op])[..|w.ops|] == w.ops;
    var shorter := TruncateRunes(w.summary, opts.HalfSummary());
    EstimateOfPrefix(shorter, w.summary);
    EstimateIsBounded(shorter);
  }

  lemma CutKeeps(w: Work, opts: TurnOptions, summary: string, turns: seq<Turn>)
    requires Conserves(w, summary, turns)
    ensures var r := CutToLimit(w, opts);
            Conserves(r, summary, turns) && |r.turns| <= opts.recentTurnLimit
  {
    if |w.turns| > opts.recentTurnLimit {
      EvictConserves(w, |w.turns| - opts.recentTurnLimit, opts, summary, turns);
    }
  }

  /**
   Compression keeps the newest turns, at most the configured number of them; it brings the total under the
   threshold unless a single turn is left; it bounds the summary; and every turn it drops is merged into the
   summary once, oldest first.
   */
  lemma CompressionKeepsItsPromises(summary: string, turns: seq<Turn>, opts: TurnOptions)
    ensures var r := Compressed(summary, turns, opts);
            && MergedTurns(r.ops) + r.turns == turns
            && Replay(summary, r.ops) == r.summary
            && |r.turns| <= opts.recentTurnLimit
            && (TotalTokens(r.summary, r.turns) <= opts.Threshold() || |r.turns| <= 1)
            && EstimateTokens(r.summary) <= Max(opts.HalfThreshold(), Max(0, opts.HalfSummary()))
  {
    var w := Work(summary, turns, []);
    assert [] + turns == turns;
    var c := CutToLimit(w, opts);
    CutKeeps(w, opts, summary, turns);
    EvictOverBudgetKeeps(c, opts, summary, turns);
    ShortenConserves(EvictOverBudget(c, opts), opts, summary, turns);
  }

  /** Turns are dropped only at need: a memory within both limits keeps every turn. */
  lemma {:induction false} NothingIsDroppedWithoutNeed(summary: string, turns: seq<Turn>, opts: TurnOptions)
    requires |turns| <= opts.recentTurnLimit
    requires TotalTokens(summary, turns) <= opts.Threshold() || |turns| <= 1
    ensures var r := Compressed(summary, turns, opts);
            r.turns == turns && MergedTurns(r.ops) == [] && r.summary <= summary
  {
    assert ([] + [Shorten(opts.HalfSummary())])[..0] == [];
  }

  /** Whenever compression goes below the turn limit, the memory one eviction earlier was over the threshold. */
  lemma {:induction false} LastEvictionWasNeeded(w: Work, opts: TurnOptions) returns (before: Work)
    requires OverBudget(w, opts)
    ensures OverBudget(before, opts)
    ensures EvictOverBudget(w, opts) == Evict(before, 1, opts)
    decreases |w.turns|
  {
    var next := Evict(w, 1, opts);
    if OverBudget(next, opts) {
      before := LastEvictionWasNeeded(next, opts);
    } else {
      before := w;
    }
  }

  /** Every merge is cut at the summary limit, and a summary is shortened to half of that at most once, at the end. */
  ghost predicate Permitted(ops: seq<SummaryOp>, opts: TurnOptions) {
    forall k :: 0 <= k < |ops| ==>
      && (ops[k].Merge? ==> ops[k].limit == opts.summaryRuneLimit && ops[k].batch != [])
      && (ops[k].Shorten? ==> ops[k].limit == opts.HalfSummary() && k == |ops| - 1)
  }

  lemma {:induction false} EvictionsArePermitted(w: Work, opts: TurnOptions)
    requires forall k :: 0 <= k < |w.ops| ==> w.ops[k].Merge?
    requires Permitted(w.ops, opts)
    ensures var r := EvictOverBudget(w, opts);
            Permitted(r.ops, opts) && forall k :: 0 <= k < |r.ops| ==> r.ops[k].Merge?
    decreases |w.turns|
  {
    if OverBudget(w, opts) {
      EvictionsArePermitted(Evict(w, 1, opts), opts);
    }
  }

  lemma OperationsArePermitted(summary: string, turns: seq<Turn>, opts: TurnOptions)
    ensures Permitted(Compressed(summary, turns, opts).ops, opts)
  {
    EvictionsArePermitted(CutToLimit(Work(summary, turns, []), opts), opts);
  }

  lemma {:induction false} EvictionLeavesAsMuchAsFits(w: Work, opts: TurnOptions, summary: string, turns: seq<Turn>)
    returns (before: Work)
    requires Conserves(w, summary, turns) && OverBudget(w, opts)
    ensures var r := EvictOverBudget(w, opts);
            && Conserves(before, summary, turns) && OverBudget(before, opts) && |before.turns| == |r.turns| + 1
    decreases |w.turns|
  {
    var next := Evict(w, 1, opts);
    EvictConserves(w, 1, opts, summary, turns);
    if OverBudget(next, opts) {
      before := EvictionLeavesAsMuchAsFits(next, opts, summary, turns);
    } else {
      before := w;
    }
  }

  /**
   Compression keeps as many turns as it may: the configured number, or all if there are fewer, unless with one turn
   more, the others merged, the memory was still over the threshold.
   */
  lemma CompressionKeepsWhatItMay(summary: string, turns: seq<Turn>, opts: TurnOptions) returns (before: Work)
    ensures var r := Compressed(summary, turns, opts);
            || |r.turns| == Min(|turns|, opts.recentTurnLimit)
            || (&& Conserves(before, summary, turns) && |before.turns| == |r.turns| + 1 > 1
                && TotalTokens(before.summary, before.turns) > opts.Threshold())
  {
    var w := Work(summary, turns, []);
    assert [] + turns == turns;
    var c := CutToLimit(w, opts);
    CutKeeps(w, opts, summary, turns);
    before := c;
    if OverBudget(c, opts) {
      before := EvictionLeavesAsMuchAsFits(c, opts, summary, turns);
    }
  }

  /** Compressing a compressed memory changes neither its turns nor its summary. */
  lemma CompressionIsIdempotent(summary: string, turns: seq<Turn>, opts: TurnOptions)
    ensures var once := Compressed(summary, turns, opts);
            var twice := Compressed(once.summary, once.turns, opts);
            && twice.summary == once.summary && twice.turns == once.turns
            && MergedTurns(twice.ops) == []
            && (twice.ops == [] <==> EstimateTokens(once.summary) <= opts.HalfThreshold())
  {
    var once := Compressed(summary, turns, opts);
    CompressionKeepsItsPromises(summary, turns, opts);
    NothingIsDroppedWithoutNeed(once.summary, once.turns, opts);
    var w := EvictOverBudget(CutToLimit(Work(summary, turns, []), opts), opts);
    if EstimateTokens(w.summary) > opts.HalfThreshold() {
      assert |once.summary| <= Max(0, opts.HalfSummary());
      assert TruncateRunes(once.summary, opts.HalfSummary()) == once.summary;
    }
  }
}
