/**
 Packing conversation history into the context window of the model: newest turns first, each included when it
 still fits. internal/voicews/session.go:1646-1704.
 */
module ContextWindow {
  import opened Common
  import opened Text
  import opened Tokens
  import opened Compression
  import opened MemoryStore

  /** What the base messages, the latest user text and the reply need; the sum with the reserve may wrap around. */
  function BaseTokens(base: seq<Message>, latest: string): nat {
    EstimateMessages(base) + EstimateMessage(Message(User, latest))
  }

  /** The share of the window meant to be filled. */
  function TargetTokens(opts: Options): int {
    TruncDiv(Wrap64(opts.contextLimitTokens * opts.targetPercent), 100)
  }

  function HistoryBudget(baseTokens: nat, opts: Options): int {
    Wrap64(TargetTokens(opts) - Wrap64(baseTokens + opts.outputReserveTokens))
  }

  const SUMMARY_HEADER := "Conversation memory summary from earlier turns. Use it only to resolve pronouns, follow-up instructions, confirmations, and corrections. Do not quote it unless the user asks.\n"

  /** The summary message, if there is a summary and its message fits the budget. */
  function SummaryPart(header: string, summary: string, budget: int): seq<Message> {
    var message := Message(System, header + summary);
    if Trim(summary) != "" && EstimateMessage(message) <= budget then [message] else []
  }

  /** The messages of the chosen turns, in the order of the conversation. */
  ghost function Chosen(turns: seq<Turn>, kept: seq<bool>): seq<Message>
    requires |turns| == |kept|
  {
    if turns == [] then []
    else (if kept[0] then TurnMessages(turns[0]) else []) + Chosen(turns[1..], kept[1..])
  }

  ghost function CountKept(kept: seq<bool>): nat {
    if kept == [] then 0 else (if kept[0] then 1 else 0) + CountKept(kept[1..])
  }

  /** Counting from the newest, a turn is kept exactly when it fits beside the summary and the kept newer turns. */
  ghost predicate Greedy(first: seq<Message>, turns: seq<Turn>, kept: seq<bool>, budget: int)
    requires |turns| == |kept|
  {
    forall i :: 0 <= i < |turns| ==>
      (kept[i] <==> EstimateMessages(first) + EstimateMessages(Chosen(turns[i + 1..], kept[i + 1..]))
                    + EstimateMessages(TurnMessages(turns[i])) <= budget)
  }

  lemma ChosenSplits(turns: seq<Turn>, kept: seq<bool>, i: nat)
    requires |turns| == |kept| && i < |turns|
    ensures Chosen(turns[i..], kept[i..])
         == (if kept[i] then TurnMessages(turns[i]) else []) + Chosen(turns[i + 1..], kept[i + 1..])
  {
    assert turns[i..][1..] == turns[i + 1..] && kept[i..][1..] == kept[i + 1..];
  }

  lemma {:induction false} OlderOnlyAdds(turns: seq<Turn>, kept: seq<bool>, i: nat)
    requires |turns| == |kept| && i <= |turns|
    ensures EstimateMessages(Chosen(turns[i..], kept[i..])) <= EstimateMessages(Chosen(turns, kept))
    decreases i
  {
    if i == 0 {
      assert turns[0..] == turns && kept[0..] == kept;
    } else {
      ChosenSplits(turns, kept, i - 1);
      EstimateMessagesAppend(if kept[i - 1] then TurnMessages(turns[i - 1]) else [], Chosen(turns[i..], kept[i..]));
      OlderOnlyAdds(turns, kept, i - 1);
    }
  }

  /** The greedy choice is maximal: no turn left out would still fit beside everything that was included. */
  lemma GreedyIsMaximal(first: seq<Message>, turns: seq<Turn>, kept: seq<bool>, budget: int, i: nat)
    requires |turns| == |kept| && i < |turns| && Greedy(first, turns, kept, budget) && !kept[i]
    ensures EstimateMessages(first + Chosen(turns, kept)) + EstimateMessages(TurnMessages(turns[i])) > budget
  {
    OlderOnlyAdds(turns, kept, i + 1);
    EstimateMessagesAppend(first, Chosen(turns, kept));
  }

  /** The same of a summary left out. */
  lemma OmittedSummaryDoesNotFit(header: string, summary: string, turns: seq<Turn>, kept: seq<bool>, budget: int)
    requires |turns| == |kept| && Trim(summary) != "" && SummaryPart(header, summary, budget) == []
    ensures EstimateMessages(Chosen(turns, kept)) + EstimateMessage(Message(System, header + summary)) > budget
  {
  }

  /** What is chosen is, for each kept turn in order, its user text and then its assistant text. */
  lemma {:induction false} ChosenIsWhatWasSaid(turns: seq<Turn>, kept: seq<bool>, i: nat)
    requires |turns| == |kept| && i < |turns| && kept[i]
    ensures var chosen, at := Chosen(turns, kept), 2 * CountKept(kept[..i]);
            && at + 2 <= |chosen| == 2 * CountKept(kept)
            && chosen[at] == Message(User, turns[i].userText) && chosen[at + 1] == Message(Assistant, turns[i].assistantText)
  {
    ChosenLength(turns, kept);
    if i > 0 {
      ChosenIsWhatWasSaid(turns[1..], kept[1..], i - 1);
      assert kept[..i][1..] == kept[1..][..i - 1];
    } else {
      ChosenLength(turns[1..], kept[1..]);
    }
  }

  lemma {:induction false} ChosenLength(turns: seq<Turn>, kept: seq<bool>)
    requires |turns| == |kept|
    ensures |Chosen(turns, kept)| == 2 * CountKept(kept)
  {
    if turns != [] {
      ChosenLength(turns[1..], kept[1..]);
    }
  }

  datatype Packed = Packed(messages: seq<Message>, historyBudget: int, includedTokens: nat, includedTurns: nat)

  /**
   What a packing is: the summary if it fits, then the kept turns in the order of the conversation; what is counted
   is exactly what is returned, it fits the budget, and no turn left out would still fit beside it.
   */
  ghost predicate Packing(packed: Packed, header: string, summary: string, turns: seq<Turn>, kept: seq<bool>) {
    && |kept| == |turns|
    && packed.includedTokens == EstimateMessages(packed.messages) && packed.includedTurns == CountKept(kept)
    && if packed.historyBudget <= 0 then packed.messages == []
       else
         var first := SummaryPart(header, summary, packed.historyBudget);
         && packed.messages == first + Chosen(turns, kept)
         && Greedy(first, turns, kept, packed.historyBudget)
         && packed.includedTokens <= packed.historyBudget
         && forall i :: 0 <= i < |turns| && !kept[i] ==>
              packed.includedTokens + EstimateMessages(TurnMessages(turns[i])) > packed.historyBudget
  }

  /** The packing loop of conversationContextMessages, on a snapshot. */
  method PackContext(header: string, summary: string, turns: seq<Turn>, baseTokens: nat, opts: Options)
    returns (packed: Packed, ghost kept: seq<bool>)
    ensures packed.historyBudget == HistoryBudget(baseTokens, opts) && Packing(packed, header, summary, turns, kept)
    ensures RunesOf(packed.messages) <= 4 * Max(0, packed.historyBudget)
  {
    var budget := HistoryBudget(baseTokens, opts);
    if budget <= 0 {
      kept := seq(|turns|, _ => false);
      NoneKept(turns);
      return Packed([], budget, 0, 0), kept;
    }
    var out, includedTokens := [], 0;
    if Trim(summary) != "" {
      var message := Message(System, header + summary);
      var tokens := EstimateMessage(message);
      if tokens <= budget {
        out := [message];
        includedTokens := includedTokens + tokens;
        assert out[..0] == [];
      }
    }
    ghost var first := SummaryPart(header, summary, budget);
    assert out == first && EstimateMessages(first) == includedTokens;
    var recent, recentTokens, includedTurns;
    recent, recentTokens, includedTurns, kept := PackTurns(turns, includedTokens, budget, first);
    EstimateMessagesAppend(first, recent);
    forall i | 0 <= i < |turns| && !kept[i]
      ensures includedTokens + recentTokens + EstimateMessages(TurnMessages(turns[i])) > budget
    {
      GreedyIsMaximal(first, turns, kept, budget, i);
    }
    packed := Packed(out + recent, budget, includedTokens + recentTokens, includedTurns);
    CountCoversTheText(packed.messages);
  }

  /** The loop over the turns, newest first. */
  method PackTurns(turns: seq<Turn>, firstTokens: nat, budget: int, ghost first: seq<Message>)
    returns (recent: seq<Message>, recentTokens: nat, includedTurns: nat, ghost kept: seq<bool>)
    requires EstimateMessages(first) == firstTokens <= budget
    ensures |kept| == |turns|
    ensures recent == Chosen(turns, kept) && recentTokens == EstimateMessages(recent)
    ensures includedTurns == CountKept(kept)
    ensures Greedy(first, turns, kept, budget)
    ensures firstTokens + recentTokens <= budget
  {
    recent, recentTokens, includedTurns, kept := [], 0, 0, [];
    var index := |turns|;
    while index > 0
      invariant 0 <= index <= |turns| && |kept| == |turns| - index
      invariant recent == Chosen(turns[index..], kept)
      invariant Greedy(first, turns[index..], kept, budget)
      invariant recentTokens == EstimateMessages(recent) && firstTokens + recentTokens <= budget
      invariant includedTurns == CountKept(kept)
    {
      index := index - 1;
      var turnMessages := TurnMessages(turns[index]);
      var tokens := EstimateMessages(turnMessages);
      ghost var fits := firstTokens + recentTokens + tokens <= budget;
      GreedyGrows(first, turns[index], turns[index + 1..], fits, kept, budget);
      assert [turns[index]] + turns[index + 1..] == turns[index..];
      kept := [fits] + kept;
      if firstTokens + recentTokens + tokens > budget {
        continue;
      }
      EstimateMessagesAppend(turnMessages, recent);
      recent := turnMessages + recent;
      recentTokens := recentTokens + tokens;
      includedTurns := includedTurns + 1;
    }
    assert turns[0..] == turns;
  }

  lemma {:induction false} NoneKept(turns: seq<Turn>)
    ensures CountKept(seq(|turns|, _ => false)) == 0
  {
    if turns != [] {
      NoneKept(turns[1..]);
      assert seq(|turns|, _ => false)[1..] == seq(|turns[1..]|, _ => false);
    }
  }

  lemma GreedyGrows(first: seq<Message>, turn: Turn, turns: seq<Turn>, fits: bool, kept: seq<bool>, budget: int)
    requires |turns| == |kept| && Greedy(first, turns, kept, budget)
    requires fits <==> EstimateMessages(first) + EstimateMessages(Chosen(turns, kept))
                       + EstimateMessages(TurnMessages(turn)) <= budget
    ensures Greedy(first, [turn] + turns, [fits] + kept, budget)
    ensures Chosen([turn] + turns, [fits] + kept) == (if fits then TurnMessages(turn) else []) + Chosen(turns, kept)
    ensures CountKept([fits] + kept) == (if fits then 1 else 0) + CountKept(kept)
  {
    var ts, ks := [turn] + turns, [fits] + kept;
    assert ts[1..] == turns && ks[1..] == kept;
    forall i | 0 <= i < |ts|
      ensures ks[i] <==> EstimateMessages(first) + EstimateMessages(Chosen(ts[i + 1..], ks[i + 1..]))
                         + EstimateMessages(TurnMessages(ts[i])) <= budget
    {
      if i > 0 {
        assert ts[i] == turns[i - 1] && ks[i] == kept[i - 1];
        assert ts[i + 1..] == turns[i..] && ks[i + 1..] == kept[i..];
        assert turns[i - 1 + 1..] == turns[i..];
      }
    }
  }

  // ---- The budget and the window ----

  /** The promise of the budget: filling it keeps base, reserve and history within the target share. */
  ghost predicate BudgetIsSound(baseTokens: nat, opts: Options) {
    var budget := HistoryBudget(baseTokens, opts);
    budget > 0 ==>
      baseTokens + opts.outputReserveTokens + budget <= (opts.contextLimitTokens * opts.targetPercent) / 100
  }

  lemma WrapOnce(n: int)
    requires -TWO_64 - TWO_63 <= n < TWO_64 + TWO_63
    ensures Wrap64(n) == if n < -TWO_63 then n + TWO_64 else if n < TWO_63 then n else n - TWO_64
  {
  }

  /**
   The budget is sound unless the base tokens and the output reserve exceed the share by more than 2^63 (and less than
   2^64), when the difference wraps around to a positive number. The share is the one the code computes, whose product
   wraps around first. Client metadata set both the reserve and the context limit: a huge reserve can break the budget
   by itself, and a huge limit by making the share negative, where the limit's own share would not.
   */
  lemma BudgetSoundness(baseTokens: nat, opts: Options)
    requires opts.InRange() && baseTokens < TWO_63
    ensures BudgetIsSound(baseTokens, opts)
       <==> !(TWO_63 < baseTokens + opts.outputReserveTokens - TargetTokens(opts) < TWO_64)
  {
    ProductIsBounded(opts.contextLimitTokens, opts.targetPercent);
    SoundnessOfProduct(opts.contextLimitTokens * opts.targetPercent, baseTokens, opts.outputReserveTokens);
  }

  /** Where nothing wraps around the budget is the share less what base and reserve need. */
  lemma BudgetIsTheRest(baseTokens: nat, opts: Options)
    requires 0 <= opts.contextLimitTokens * opts.targetPercent < TWO_63
    requires 0 <= opts.outputReserveTokens && baseTokens + opts.outputReserveTokens < TWO_63
    ensures var needed := HistoryBudget(baseTokens, opts) + baseTokens + opts.outputReserveTokens;
            100 * needed <= opts.contextLimitTokens * opts.targetPercent < 100 * (needed + 1)
  {
    var share := TargetTokens(opts);
    WrapOnce(share - (baseTokens + opts.outputReserveTokens));
  }

  /** The summary goes in, below its header, if and only if it is not blank and its message fits. */
  lemma SummaryGoesInIff(header: string, summary: string, budget: int)
    ensures var text := header + summary;
            SummaryPart(header, summary, budget)
            == if Trim(summary) != "" && 6 + EstimateTokens(text) <= budget then [Message(System, text)] else []
  {
    RolesCount();
  }

  lemma ProductIsBounded(limit: nat, percent: nat)
    requires percent <= 95
    ensures 0 <= limit * percent <= limit * 95
  {
  }

  /** The arithmetic of the budget, with the product as one number. */
  lemma SoundnessOfProduct(product: nat, baseTokens: nat, reserve: int)
    requires product < 95 * TWO_63 && baseTokens < TWO_63 && -TWO_63 <= reserve < TWO_63
    ensures var share := TruncDiv(Wrap64(product), 100);
            var budget := Wrap64(share - Wrap64(baseTokens + reserve));
            (budget > 0 ==> baseTokens + reserve + budget <= product / 100)
            <==> !(TWO_63 < baseTokens + reserve - share < TWO_64)
  {
    var share := TruncDiv(Wrap64(product), 100);
    WrappedShareIsSmaller(product);
    var need := baseTokens + reserve;
    WrapOnce(need);
    WrapOnce(share - Wrap64(need));
  }

  lemma WrappedShareIsSmaller(product: nat)
    requires product < 95 * TWO_63
    ensures -TWO_63 / 100 - 1 <= TruncDiv(Wrap64(product), 100) <= product / 100 < TWO_63
  {
    if product >= TWO_63 {
      assert Wrap64(product) < TWO_63 <= product;
    }
  }

  /**
   So whatever is packed fits the window, whenever the budget is sound: tokens as they are counted, and the text itself
   at four runes a token.
   */
  lemma PackedHistoryFitsTheWindow(packed: Packed, base: seq<Message>, latest: string, opts: Options)
    requires opts.InRange() && BaseTokens(base, latest) < TWO_63
    requires !(TWO_63 < BaseTokens(base, latest) + opts.outputReserveTokens - TargetTokens(opts) < TWO_64)
    requires packed.historyBudget == HistoryBudget(BaseTokens(base, latest), opts) > 0
    requires packed.includedTokens == EstimateMessages(packed.messages) <= packed.historyBudget
    ensures var share := (opts.contextLimitTokens * opts.targetPercent) / 100;
            && BaseTokens(base, latest) + opts.outputReserveTokens + packed.includedTokens <= share
            && RunesOf(base) + |Trim(latest)| + RunesOf(packed.messages) + 4 * opts.outputReserveTokens <= 4 * share
  {
    BudgetSoundness(BaseTokens(base, latest), opts);
    CountCoversTheText(base);
    MessageCountsItsText(Message(User, latest));
    CountCoversTheText(packed.messages);
  }

  /**
   A budget that breaks because of the limit: the share of 2^62 at 70 percent wraps around to a negative number, so
   base and reserve just below 2^63 leave a positive budget; a limit of 32768 gives none.
   */
  lemma HugeLimitBreaksTheBudget(baseTokens: nat, opts: Options)
    requires opts.InRange() && opts.targetPercent == 70 && opts.contextLimitTokens == 0x4000_0000_0000_0000
    requires opts.outputReserveTokens >= 0 && baseTokens + opts.outputReserveTokens == 0x7FFF_FFFF_FFFF_FFF6
    ensures !BudgetIsSound(baseTokens, opts)
    ensures HistoryBudget(baseTokens, opts.(contextLimitTokens := 32_768)) < 0
  {
    assert TargetTokens(opts) < -10;
    BudgetSoundness(baseTokens, opts);
  }

  /** conversationContextMessages: without a session there is no key and no history. */
  method ConversationContextMessages(store: ConversationMemoryStore, key: string, now: int, opts: TurnOptions,
                                     base: seq<Message>, latest: string)
    returns (packed: Packed, reset: bool, ghost kept: seq<bool>)
    requires store.Valid()
    modifies store, if key in store.sessions then {store.sessions[key]} else {}
    ensures store.Valid()
    ensures key == "" ==> packed == Packed([], 0, 0, 0) && store.sessions == old(store.sessions)
    ensures key != "" ==>
              var m := Served(Compressed, old(store.At(key)), Request.Snapshot(now, opts));
              && store.At(key) == Some(m)
              && packed.historyBudget == HistoryBudget(BaseTokens(base, latest), opts)
              && Packing(packed, SUMMARY_HEADER, m.summary, m.turns, kept)
              && RunesOf(packed.messages) <= 4 * Max(0, packed.historyBudget)
    ensures reset <==> key != "" && key in old(store.sessions)
                       && old(Idle(store.sessions[key].lastInteraction, now, opts))
  {
    if key == "" {
      return Packed([], 0, 0, 0), false, [];
    }
    var summary, turns, wasReset, _ := store.Snapshot(key, now, opts);
    reset := wasReset;
    packed, kept := PackContext(SUMMARY_HEADER, summary, turns, BaseTokens(base, latest), opts);
  }
}
