/**
 The store of conversation memories: one memory for each key, dropped after an idle period and compressed on
 every visit. internal/voicews/session.go:1747-1786.
 */
module MemoryStore {
  import opened Common
  import opened Text
  import opened Tokens
  import opened Compression
  import Summaries

  datatype MemoryValue = MemoryValue(summary: string, turns: seq<Turn>, lastInteraction: int, contextLimitTokens: int)

  /** The two requests made of a memory. */
  datatype Request =
    | Append(turn: Turn, opts: TurnOptions)
    | Snapshot(now: int, opts: TurnOptions)
  {
    function Now(): int {
      match this
      case Append(turn, _) => turn.at
      case Snapshot(now, _) => now
    }
  }

  /** A way of compressing, such as Compressed. */
  type Compressor = (string, seq<Turn>, TurnOptions) -> Work

  predicate Idle(lastInteraction: int, now: int, opts: TurnOptions) {
    lastInteraction != 0 && now - lastInteraction > opts.idleTimeout
  }

  function EmptyMemory(opts: TurnOptions): MemoryValue {
    MemoryValue("", [], 0, opts.contextLimitTokens)
  }

  /** The memory just before compression: what is left after the idle test, with an appended turn. */
  function Touched(m: MemoryValue, r: Request): MemoryValue {
    var kept := if Idle(m.lastInteraction, r.Now(), r.opts) then m.(summary := "", turns := []) else m;
    match r
    case Append(turn, _) => kept.(turns := kept.turns + [turn], lastInteraction := turn.at)
    case Snapshot(_, _) => kept
  }

  function Served(compress: Compressor, memory: Option<MemoryValue>, r: Request): MemoryValue {
    var m := Touched(if memory.Some? then memory.value else EmptyMemory(r.opts), r);
    var w := compress(m.summary, m.turns, r.opts);
    m.(summary := w.summary, turns := w.turns, contextLimitTokens := r.opts.contextLimitTokens)
  }

  // ---- One key over a run ----

  /** What a run of requests leaves under a key that did not exist before. */
  ghost function MemoryAfter(compress: Compressor, run: seq<Request>): Option<MemoryValue> {
    if run == [] then None
    else Some(Served(compress, MemoryAfter(compress, run[..|run| - 1]), run[|run| - 1]))
  }

  /** The time of the last appended turn; 0 if there is none. */
  ghost function LastAppendAt(run: seq<Request>): int {
    if run == [] then 0
    else
      var r := run[|run| - 1];
      if r.Append? then r.turn.at else LastAppendAt(run[..|run| - 1])
  }

  /** Does the last request of the run find the conversation idle? */
  ghost predicate Resets(run: seq<Request>)
    requires run != []
  {
    var r, last := run[|run| - 1], LastAppendAt(run[..|run| - 1]);
    last != 0 && r.Now() > last + r.opts.idleTimeout
  }

  /** The turns appended since the last idle reset. */
  ghost function AppendedSinceReset(run: seq<Request>): seq<Turn> {
    if run == [] then []
    else
      var r := run[|run| - 1];
      (if Resets(run) then [] else AppendedSinceReset(run[..|run| - 1])) + if r.Append? then [r.turn] else []
  }

  /** The operations on the summary since the last idle reset. */
  ghost function SummaryHistory(compress: Compressor, run: seq<Request>): seq<SummaryOp> {
    if run == [] then []
    else
      var before, r := run[..|run| - 1], run[|run| - 1];
      var memory := MemoryAfter(compress, before);
      var m := Touched(if memory.Some? then memory.value else EmptyMemory(r.opts), r);
      (if Resets(run) then [] else SummaryHistory(compress, before)) + compress(m.summary, m.turns, r.opts).ops
  }

  /** A compression that accounts for every turn. */
  ghost predicate LosesNothing(compress: Compressor) {
    forall summary, turns, opts :: Conserves(compress(summary, turns, opts), summary, turns)
  }

  ghost predicate Explains(compress: Compressor, run: seq<Request>, m: MemoryValue) {
    && MergedTurns(SummaryHistory(compress, run)) + m.turns == AppendedSinceReset(run)
    && Replay("", SummaryHistory(compress, run)) == m.summary
    && m.lastInteraction == LastAppendAt(run)
    && run != [] && m.contextLimitTokens == run[|run| - 1].opts.contextLimitTokens
  }

  lemma HistoryGrows(ops: seq<SummaryOp>, summary: string, kept: seq<Turn>, appended: seq<Turn>,
                     added: seq<Turn>, w: Work)
    requires MergedTurns(ops) + kept == appended && Replay("", ops) == summary
    requires Conserves(w, summary, kept + added)
    ensures MergedTurns(ops + w.ops) + w.turns == appended + added
    ensures Replay("", ops + w.ops) == w.summary
  {
    ReplayAppend("", ops, w.ops);
    Regroup(MergedTurns(ops), MergedTurns(w.ops), w.turns, kept, added);
  }

  lemma Regroup<T>(merged: seq<T>, more: seq<T>, left: seq<T>, kept: seq<T>, added: seq<T>)
    requires more + left == kept + added
    ensures merged + more + left == merged + kept + added
  {
    assert merged + more + left == merged + (more + left);
    assert merged + (kept + added) == merged + kept + added;
  }

  lemma {:induction false} AnyCompressorConserves(compress: Compressor, run: seq<Request>)
    requires LosesNothing(compress) && run != []
    ensures Explains(compress, run, MemoryAfter(compress, run).value)
  {
    var before, r := run[..|run| - 1], run[|run| - 1];
    if before != [] {
      AnyCompressorConserves(compress, before);
    }
    var memory := MemoryAfter(compress, before);
    var m := if memory.Some? then memory.value else EmptyMemory(r.opts);
    assert m.lastInteraction == LastAppendAt(before);
    var touched := Touched(m, r);
    var w := compress(touched.summary, touched.turns, r.opts);
    assert Conserves(w, touched.summary, touched.turns);
    var added := if r.Append? then [r.turn] else [];
    if Resets(run) {
      HistoryGrows([], "", [], [], added, w);
    } else {
      HistoryGrows(SummaryHistory(compress, before), m.summary, m.turns, AppendedSinceReset(before), added, w);
    }
  }

  lemma CompressedLosesNothing()
    ensures LosesNothing(Compressed)
  {
    forall summary, turns, opts ensures Conserves(Compressed(summary, turns, opts), summary, turns) {
      CompressionKeepsItsPromises(summary, turns, opts);
    }
  }

  /**
   Over every run of requests under a key: the turns merged into the summary, then the turns kept, are exactly
   the turns appended since the last idle reset; and the summary is what merging them in that order gives: the
   beginnings of their lines, one below the other, and nothing else.
   */
  lemma RunsConserveTurns(run: seq<Request>)
    requires run != []
    ensures var m := MemoryAfter(Compressed, run).value;
            Explains(Compressed, run, m) && Summaries.Tells(m.summary, MergedTurns(SummaryHistory(Compressed, run)))
  {
    CompressedLosesNothing();
    AnyCompressorConserves(Compressed, run);
    Summaries.HistoryIsTold(SummaryHistory(Compressed, run));
  }

  // ---- Many keys ----

  datatype Keyed = Keyed(key: string, request: Request)

  function ServeStore(compress: Compressor, store: map<string, MemoryValue>, k: Keyed): map<string, MemoryValue> {
    store[k.key := Served(compress, Find(store, k.key), k.request)]
  }

  function Find(store: map<string, MemoryValue>, key: string): Option<MemoryValue> {
    if key in store then Some(store[key]) else None
  }

  ghost function StoreAfter(compress: Compressor, run: seq<Keyed>): map<string, MemoryValue> {
    if run == [] then map[] else ServeStore(compress, StoreAfter(compress, run[..|run| - 1]), run[|run| - 1])
  }

  /** The requests of a run made under one key. */
  ghost function Under(run: seq<Keyed>, key: string): seq<Request> {
    if run == [] then []
    else Under(run[..|run| - 1], key) + if run[|run| - 1].key == key then [run[|run| - 1].request] else []
  }

  lemma {:induction false} KeysDoNotInterfere(compress: Compressor, run: seq<Keyed>, key: string)
    ensures Find(StoreAfter(compress, run), key) == MemoryAfter(compress, Under(run, key))
  {
    if run != [] {
      var before := run[..|run| - 1];
      KeysDoNotInterfere(compress, before, key);
      var own, last := Under(before, key), run[|run| - 1];
      if last.key == key {
        assert Under(run, key)[..|own|] == own;
      } else {
        assert Under(run, key) == own;
      }
    }
  }

  /** Every memory of the store, after any run over any mix of keys, is explained by its own key's requests. */
  lemma StoreConservesTurns(run: seq<Keyed>, key: string)
    ensures key in StoreAfter(Compressed, run) <==> Under(run, key) != []
    ensures key in StoreAfter(Compressed, run) ==>
              var m, own := StoreAfter(Compressed, run)[key], Under(run, key);
              && Explains(Compressed, own, m)
              && Summaries.Tells(m.summary, MergedTurns(SummaryHistory(Compressed, own)))
  {
    KeysDoNotInterfere(Compressed, run, key);
    if Under(run, key) != [] {
      RunsConserveTurns(Under(run, key));
    }
  }

  /** Served by Compressed, spelled out so that its promises can be used. */
  lemma ServedIsBounded(memory: Option<MemoryValue>, r: Request)
    ensures var m := Served(Compressed, memory, r);
            && |m.turns| <= r.opts.recentTurnLimit
            && (TotalTokens(m.summary, m.turns) <= r.opts.Threshold() || |m.turns| <= 1)
  {
    var m := Touched(if memory.Some? then memory.value else EmptyMemory(r.opts), r);
    CompressionKeepsItsPromises(m.summary, m.turns, r.opts);
  }

  /**
   A snapshot taken within the idle timeout of an append, under the same options, evicts nothing and leaves the
   memory as it was.
   */
  lemma SnapshotAfterAppendChangesNothing(memory: Option<MemoryValue>, turn: Turn, now: int, opts: TurnOptions)
    requires turn.at == 0 || now - turn.at <= opts.idleTimeout
    ensures var after := Served(Compressed, memory, Append(turn, opts));
            && Served(Compressed, Some(after), Snapshot(now, opts)) == after
            && MergedTurns(Compressed(after.summary, after.turns, opts).ops) == []
  {
    var m := Touched(if memory.Some? then memory.value else EmptyMemory(opts), Append(turn, opts));
    var after := Served(Compressed, memory, Append(turn, opts));
    assert Touched(after, Snapshot(now, opts)) == after;
    CompressionIsIdempotent(m.summary, m.turns, opts);
  }

  // ---- The objects ----

  class ConversationMemory {
    var summary: string
    var turns: seq<Turn>
    var lastInteraction: int
    var contextLimitTokens: int

    constructor (limit: int)
      ensures Value() == MemoryValue("", [], 0, limit)
    {
      summary, turns, lastInteraction, contextLimitTokens := "", [], 0, limit;
    }

    ghost function Value(): MemoryValue
      reads this
    {
      MemoryValue(summary, turns, lastInteraction, contextLimitTokens)
    }

    /** estimateConversationMemoryTokens */
    method EstimateTotal() returns (total: nat)
      ensures total == TotalTokens(summary, turns)
    {
      total := EstimateTokens(summary);
      for i := 0 to |turns|
        invariant total == EstimateTokens(summary) + TurnsTokens(turns[..i])
      {
        assert turns[..i + 1][..i] == turns[..i];
        total := total + EstimateMessages(TurnMessages(turns[i]));
      }
      assert turns[..|turns|] == turns;
    }

    /** What snapshot does to the memory it found. */
    method Visit(now: int, opts: TurnOptions) returns (reset: bool, compressed: bool)
      modifies this
      ensures Value() == Served(Compressed, Some(old(Value())), Snapshot(now, opts))
      ensures reset <==> Idle(old(lastInteraction), now, opts)
      ensures compressed <==> Compressed(if reset then "" else old(summary), if reset then [] else old(turns), opts).ops != []
    {
      reset := false;
      if lastInteraction != 0 && now - lastInteraction > opts.idleTimeout {
        summary, turns := "", [];
        reset := true;
      }
      contextLimitTokens := opts.contextLimitTokens;
      compressed := Compress(opts);
    }

    /** What append does to the memory it found. */
    method TakeIn(turn: Turn, opts: TurnOptions)
      modifies this
      ensures Value() == Served(Compressed, Some(old(Value())), Append(turn, opts))
    {
      if lastInteraction != 0 && turn.at - lastInteraction > opts.idleTimeout {
        summary, turns := "", [];
      }
      contextLimitTokens := opts.contextLimitTokens;
      turns := turns + [turn];
      lastInteraction := turn.at;
      var _ := Compress(opts);
    }

    /** compressConversationMemoryLocked; it reports whether it did anything to the summary. */
    method Compress(opts: TurnOptions) returns (compressed: bool)
      modifies this
      ensures var w := Compressed(old(summary), old(turns), opts);
              && Value() == old(Value()).(summary := w.summary, turns := w.turns)
              && (compressed <==> w.ops != [])
    {
      compressed := false;
      ghost var work := Work(summary, turns, []);
      if |turns| > opts.recentTurnLimit {
        var cut := |turns| - opts.recentTurnLimit;
        work := Evict(work, cut, opts);
        summary := MergeConversationSummary(summary, turns[..cut], opts.summaryRuneLimit);
        turns := turns[cut..];
        compressed := true;
      }
      assert work == CutToLimit(Work(old(summary), old(turns), []), opts);
      compressed := EvictWhileOverBudget(work, compressed, opts);
      work := EvictOverBudget(work, opts);
      if EstimateTokens(summary) > opts.HalfThreshold() {
        summary := TruncateRunes(summary, opts.HalfSummary());
        compressed := true;
      }
    }

    /** The loop of compressConversationMemoryLocked. */
    method EvictWhileOverBudget(ghost start: Work, compressedBefore: bool, opts: TurnOptions)
      returns (compressed: bool)
      requires start.summary == summary && start.turns == turns
      requires compressedBefore <==> start.ops != []
      modifies this
      ensures var w := EvictOverBudget(start, opts);
              && Value() == old(Value()).(summary := w.summary, turns := w.turns)
              && (compressed <==> w.ops != [])
    {
      compressed := compressedBefore;
      ghost var work := start;
      var total := EstimateTotal();
      while total > opts.Threshold() && |turns| > 1
        invariant work.summary == summary && work.turns == turns
        invariant compressed <==> work.ops != []
        invariant EvictOverBudget(work, opts) == EvictOverBudget(start, opts)
        invariant lastInteraction == old(lastInteraction) && contextLimitTokens == old(contextLimitTokens)
        invariant total == TotalTokens(summary, turns)
        decreases |turns|
      {
        work := Evict(work, 1, opts);
        summary := MergeConversationSummary(summary, turns[..1], opts.summaryRuneLimit);
        turns := turns[1..];
        compressed := true;
        total := EstimateTotal();
      }
    }
  }

  class ConversationMemoryStore {
    var sessions: map<string, ConversationMemory>

    constructor ()
      ensures Valid() && sessions == map[]
    {
      sessions := map[];
    }

    /** No memory is shared by two keys. */
    ghost predicate Valid()
      reads this
    {
      forall k, l :: k in sessions && l in sessions && k != l ==> sessions[k] != sessions[l]
    }

    /** What is stored under a key. */
    ghost function At(key: string): Option<MemoryValue>
      reads this, if key in sessions then {sessions[key]} else {}
    {
      if key in sessions then Some(sessions[key].Value()) else None
    }

    /** The memory of the key, made empty if there was none. */
    method Obtain(key: string, opts: TurnOptions) returns (mem: ConversationMemory)
      requires Valid()
      modifies this
      ensures Valid() && key in sessions && sessions[key] == mem
      ensures forall k :: k in old(sessions) ==> k in sessions && sessions[k] == old(sessions)[k]
      ensures sessions.Keys == old(sessions).Keys + {key}
      ensures key !in old(sessions) ==> fresh(mem) && mem.Value() == EmptyMemory(opts)
    {
      if key in sessions {
        mem := sessions[key];
      } else {
        mem := new ConversationMemory(opts.contextLimitTokens);
        sessions := sessions[key := mem];
      }
    }

    /** The key's memory becomes what serving the request makes of it; every other key keeps its own. */
    method Snapshot(key: string, now: int, opts: TurnOptions)
      returns (summary: string, turns: seq<Turn>, reset: bool, compressed: bool)
      requires Valid()
      modifies this, if key in sessions then {sessions[key]} else {}
      ensures Valid()
      ensures At(key) == Some(Served(Compressed, old(At(key)), Request.Snapshot(now, opts)))
      ensures forall k :: k != key ==> (k in sessions <==> k in old(sessions))
      ensures forall k :: k != key && k in sessions ==> At(k) == old(At(k))
      ensures summary == At(key).value.summary && turns == At(key).value.turns
      ensures reset <==> key in old(sessions) && old(Idle(sessions[key].lastInteraction, now, opts))
    {
      var mem := Obtain(key, opts);
      NewIsEmpty(Compressed, old(At(key)), Request.Snapshot(now, opts), mem.Value());
      reset, compressed := mem.Visit(now, opts);
      summary, turns := mem.summary, mem.turns;
    }

    method Append(key: string, turn: Turn, opts: TurnOptions)
      requires Valid()
      modifies this, if key in sessions then {sessions[key]} else {}
      ensures Valid()
      ensures At(key) == Some(Served(Compressed, old(At(key)), Request.Append(turn, opts)))
      ensures forall k :: k != key ==> (k in sessions <==> k in old(sessions))
      ensures forall k :: k != key && k in sessions ==> At(k) == old(At(k))
    {
      var mem := Obtain(key, opts);
      NewIsEmpty(Compressed, old(At(key)), Request.Append(turn, opts), mem.Value());
      mem.TakeIn(turn, opts);
    }
  }

  /** A missing memory is served as an empty one. */
  lemma NewIsEmpty(compress: Compressor, found: Option<MemoryValue>, r: Request, m: MemoryValue)
    requires m == if found.Some? then found.value else EmptyMemory(r.opts)
    ensures Served(compress, found, r) == Served(compress, Some(m), r)
  {
  }
}
