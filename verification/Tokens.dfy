/** The token estimator and the conversation options. internal/voicews/session.go:1788-1845, 1923-1998. */
module Tokens {
  import opened Common
  import opened Text

  /** Go integers are 64 bits wide and wrap around. */
  const TWO_63 := 0x8000_0000_0000_0000
  const TWO_64 := 0x1_0000_0000_0000_0000

  function Wrap64(n: int): (w: int)
    ensures -TWO_63 <= w < TWO_63
    ensures -TWO_63 <= n < TWO_63 ==> w == n
  {
    (n + TWO_63) % TWO_64 - TWO_63
  }

  /** Go's integer division truncates towards zero. */
  function TruncDiv(a: int, b: int): (q: int)
    requires b > 0
  {
    if a >= 0 then a / b else -(-a / b)
  }

  lemma QuotientFallsShort(size: nat, b: nat, q: int)
    requires b > 0 && q == size / b
    ensures q >= 0 && b * q <= size < b * q + b
  {
    assert size == b * q + size % b;
  }

  /** The quotient falls short of the exact one, in size, by less than one, and has its sign. */
  lemma TruncDivIsTowardsZero(a: int, b: int, q: int)
    requires b > 0 && q == TruncDiv(a, b)
    ensures if a >= 0 then q >= 0 && b * q <= a < b * q + b else q <= 0 && b * -q <= -a < b * -q + b
  {
    if a >= 0 {
      QuotientFallsShort(a, b, q);
    } else {
      QuotientFallsShort(-a, b, -q);
    }
  }

  // ---- Estimates ----

  datatype Role = System | User | Assistant

  datatype Message = Message(role: Role, content: string)

  function RoleText(role: Role): string {
    match role
    case System => "system"
    case User => "user"
    case Assistant => "assistant"
  }

  /**
   The runes that count for one token each. The source also names the Han, Hiragana, Katakana and Hangul
   scripts, all of which lie above 127.
   */
  function WideRunes(s: string): (n: nat)
    ensures n <= |s|
  {
    if s == "" then 0 else WideRunes(s[..|s| - 1]) + if s[|s| - 1] as int > 127 then 1 else 0
  }

  /** One token for each wide rune and one for every four others, rounded up. */
  function EstimateTokens(text: string): (tokens: nat)
  {
    var core := Trim(text);
    if core == "" then 0 else WideRunes(core) + (|core| - WideRunes(core) + 3) / 4
  }

  lemma {:induction false} WideRunesOfPrefix(p: string, s: string)
    requires p <= s
    ensures WideRunes(p) <= WideRunes(s)
    ensures |p| - WideRunes(p) <= |s| - WideRunes(s)
  {
    if p == s {
    } else {
      WideRunesOfPrefix(p, s[..|s| - 1]);
    }
  }

  /** Cutting a text short never raises its estimate. */
  lemma EstimateOfPrefix(p: string, s: string)
    requires p <= s
    ensures EstimateTokens(p) <= EstimateTokens(s)
  {
    TrimOfPrefix(p, s);
    WideRunesOfPrefix(Trim(p), Trim(s));
  }

  /** No text is estimated at more tokens than it has runes, and only blank text at none. */
  lemma EstimateIsBounded(s: string)
    ensures EstimateTokens(s) <= |s|
    ensures EstimateTokens(s) == 0 <==> Trim(s) == ""
  {
    TrimShortens(s);
  }

  /** The loop of estimateTokens. */
  method EstimateTokensByCounting(text: string) returns (tokens: int)
    ensures tokens == EstimateTokens(text)
  {
    var core := Trim(text);
    if core == "" {
      return 0;
    }
    var asciiRunes := 0;
    tokens := 0;
    for i := 0 to |core|
      invariant tokens == WideRunes(core[..i])
      invariant asciiRunes == i - WideRunes(core[..i])
    {
      assert core[..i + 1][..i] == core[..i];
      if core[i] as int > 127 {
        tokens := tokens + 1;
      } else {
        asciiRunes := asciiRunes + 1;
      }
    }
    assert core[..|core|] == core;
    tokens := tokens + (asciiRunes + 3) / 4;
    if tokens <= 0 {
      return 1;
    }
  }

  function EstimateMessage(m: Message): nat {
    4 + EstimateTokens(RoleText(m.role)) + EstimateTokens(m.content)
  }

  function EstimateMessages(ms: seq<Message>): nat {
    if ms == [] then 0 else EstimateMessages(ms[..|ms| - 1]) + EstimateMessage(ms[|ms| - 1])
  }

  // ---- What is counted, in terms of the text ----

  /** The positions of the runes above 127. */
  function WidePositions(s: string): set<nat> {
    set i: nat | i < |s| && s[i] as int > 127
  }

  lemma {:induction false} WideRunesAreCounted(s: string)
    ensures WideRunes(s) == |WidePositions(s)|
  {
    if s != "" {
      var n := |s| - 1;
      WideRunesAreCounted(s[..n]);
      assert WidePositions(s) == WidePositions(s[..n]) + if s[n] as int > 127 then {n} else {};
    }
  }

  /** A token for each rune of the trimmed text above 127, and one for every four of the others begun. */
  lemma EstimateCountsRunes(text: string)
    ensures var core := Trim(text);
            var wide := |WidePositions(core)|;
            && wide <= |core|
            && 4 * (EstimateTokens(text) - wide) - 3 <= |core| - wide <= 4 * (EstimateTokens(text) - wide)
  {
    WideRunesAreCounted(Trim(text));
  }

  /** What a message counts: four, its role, and its text; so four times that is no less than the runes of its text. */
  lemma MessageCountsItsText(m: Message)
    ensures var text := EstimateMessage(m) - 4 - match m.role { case System => 2 case User => 1 case Assistant => 3 };
            var core := Trim(m.content);
            var wide := |WidePositions(core)|;
            && 4 * (text - wide) - 3 <= |core| - wide <= 4 * (text - wide)
            && 4 * EstimateMessage(m) >= |core|
  {
    EstimateCountsRunes(m.content);
    RolesCount();
  }

  lemma RolesCount()
    ensures EstimateTokens("system") == 2 && EstimateTokens("user") == 1 && EstimateTokens("assistant") == 3
  {
    PlainCounts("system");
    PlainCounts("user");
    PlainCounts("assistant");
  }

  lemma PlainCounts(s: string)
    requires s != "" && forall i :: 0 <= i < |s| ==> 'a' <= s[i] <= 'z'
    ensures EstimateTokens(s) == (|s| + 3) / 4
  {
    TrimIdempotent(s);
    WideRunesAreCounted(s);
    assert WidePositions(s) == {};
  }

  /** All the runes of some messages, but for white space around their texts. */
  function RunesOf(ms: seq<Message>): nat {
    if ms == [] then 0 else RunesOf(ms[..|ms| - 1]) + |Trim(ms[|ms| - 1].content)|
  }

  lemma {:induction false} CountCoversTheText(ms: seq<Message>)
    ensures RunesOf(ms) <= 4 * EstimateMessages(ms)
    ensures EstimateMessages(ms) >= 5 * |ms|
  {
    if ms != [] {
      CountCoversTheText(ms[..|ms| - 1]);
      MessageCountsItsText(ms[|ms| - 1]);
      RolesCount();
    }
  }

  lemma {:induction false} RunesOfAppend(a: seq<Message>, b: seq<Message>)
    ensures RunesOf(a + b) == RunesOf(a) + RunesOf(b)
  {
    if b == [] {
      assert a + b == a;
    } else {
      assert (a + b)[..|a + b| - 1] == a + b[..|b| - 1];
      RunesOfAppend(a, b[..|b| - 1]);
    }
  }

  lemma OneMessage(m: Message)
    ensures EstimateMessages([m]) == EstimateMessage(m) && RunesOf([m]) == |Trim(m.content)|
  {
    assert [m][..0] == [];
  }

  lemma {:induction false} EstimateMessagesAppend(a: seq<Message>, b: seq<Message>)
    ensures EstimateMessages(a + b) == EstimateMessages(a) + EstimateMessages(b)
  {
    if b == [] {
      assert a + b == a;
    } else {
      assert (a + b)[..|a + b| - 1] == a + b[..|b| - 1];
      EstimateMessagesAppend(a, b[..|b| - 1]);
    }
  }

  // ---- Options ----

  datatype Options = Options(
    contextLimitTokens: int,
    targetPercent: int,
    compressPercent: int,
    outputReserveTokens: int,
    recentTurnLimit: int,
    idleTimeout: int,
    summaryRuneLimit: int)
  {
    /**
     What conversationOptionsFromConfig promises whatever the metadata hold; the reserve may be any 64-bit number,
     and is negative only if the conversion of a huge one overflowed.
     */
    ghost predicate InRange() {
      && 2048 <= contextLimitTokens < TWO_63
      && 20 <= targetPercent <= compressPercent <= 98 && targetPercent <= 95
      && -TWO_63 <= outputReserveTokens < TWO_63
      && 1 <= recentTurnLimit <= 32
      && 400 <= summaryRuneLimit <= 12_000
    }

    /** The memory is compressed above this many tokens; the product may wrap around. */
    function Threshold(): int {
      TruncDiv(Wrap64(contextLimitTokens * compressPercent), 100)
    }

    function HalfThreshold(): int {
      TruncDiv(Threshold(), 2)
    }

    function HalfSummary(): int {
      TruncDiv(summaryRuneLimit, 2)
    }
  }

  /** The thresholds, as long as no product wraps around. */
  lemma ThresholdsInNumbers(opts: Options)
    requires 0 <= opts.contextLimitTokens * opts.compressPercent < TWO_63 && opts.summaryRuneLimit >= 0
    ensures var all := opts.contextLimitTokens * opts.compressPercent;
            100 * opts.Threshold() <= all < 100 * (opts.Threshold() + 1)
            && 2 * opts.HalfThreshold() <= opts.Threshold() <= 2 * opts.HalfThreshold() + 1
            && 2 * opts.HalfSummary() <= opts.summaryRuneLimit <= 2 * opts.HalfSummary() + 1
  {
  }

  const SECOND := 1_000_000_000

  type Int64 = n: int | -TWO_63 <= n < TWO_63

  /**
   positiveIntValue of a number in the metadata: every positive one is accepted and truncated, a fraction below one to
   zero; converting one of 2^63 or more gives `overflow`, which is up to the platform.
   */
  function PositiveIntValue(value: real, overflow: Int64): (r: Option<Int64>)
    ensures r.Some? <==> value > 0.0
    ensures r.Some? && value < TWO_63 as real ==> 0 <= r.value && r.value as real <= value < r.value as real + 1.0
    ensures r.Some? && r.value < 0 ==> value >= TWO_63 as real
  {
    if value <= 0.0 then None else if value < TWO_63 as real then Some(value.Floor) else Some(overflow)
  }

  /** One metadata object that may override the options, each value as positiveIntValue gives it. */
  datatype Scope = Scope(
    maxContextTokens: Option<Int64>,
    targetContextPercent: Option<Int64>,
    compressContextPercent: Option<Int64>,
    outputReserveTokens: Option<Int64>,
    recentTurns: Option<Int64>,
    idleTimeoutSeconds: Option<Int64>,
    summaryRuneLimit: Option<Int64>)
  {
    function Read(setting: Setting): Option<Int64> {
      match setting
      case MaxContext => maxContextTokens
      case TargetPercent => targetContextPercent
      case OutputReserve => outputReserveTokens
      case RecentTurns => recentTurns
      case SummaryRunes => summaryRuneLimit
      case IdleSeconds => idleTimeoutSeconds
    }
  }

  /** The settings decided by the last scope that names them. */
  datatype Setting = MaxContext | TargetPercent | OutputReserve | RecentTurns | SummaryRunes | IdleSeconds

  /** Each setting is read from its own entry. */
  lemma SettingsInWords(scope: Scope)
    ensures scope.Read(MaxContext) == scope.maxContextTokens && scope.Read(TargetPercent) == scope.targetContextPercent
    ensures scope.Read(OutputReserve) == scope.outputReserveTokens && scope.Read(RecentTurns) == scope.recentTurns
    ensures scope.Read(SummaryRunes) == scope.summaryRuneLimit && scope.Read(IdleSeconds) == scope.idleTimeoutSeconds
  {
  }

  /** clampInt */
  function ClampInt(value: int, min: int, max: int): (r: int)
    ensures min <= max ==> min <= r <= max && (r < value ==> r == max) && (r > value ==> r == min)
  {
    if value < min then min else if value > max then max else value
  }

  ghost function TargetOf(scopes: seq<Scope>): (percent: int)
    ensures 20 <= percent <= 95
  {
    ClampInt(LastSet(scopes, TargetPercent, 70), 20, 95)
  }

  /** The compression percentage is raised to the target that held when it was read. */
  ghost function CompressOf(scopes: seq<Scope>): (percent: int)
    ensures 20 <= percent <= 98
  {
    if scopes == [] then 80
    else
      var own := scopes[|scopes| - 1].compressContextPercent;
      if own.Some? then ClampInt(own.value, TargetOf(scopes), 98) else CompressOf(scopes[..|scopes| - 1])
  }

  /** conversationOptionsFromConfig, given the limit inferred from the model name and the scopes in order. */
  method ConversationOptionsFromConfig(modelLimit: Int64, scopes: seq<Scope>) returns (opts: Options)
    requires modelLimit > 0
    ensures opts.InRange()
    ensures scopes == [] && modelLimit >= 2048 ==>
              opts == Options(modelLimit, 70, 80, 768, 6, 180_000_000_000, 2400)
    ensures opts.contextLimitTokens == Max(2048, LastSet(scopes, MaxContext, modelLimit))
    ensures opts.outputReserveTokens == LastSet(scopes, OutputReserve, 768)
    ensures opts.recentTurnLimit == ClampInt(LastSet(scopes, RecentTurns, 6), 1, 32)
    ensures opts.summaryRuneLimit == ClampInt(LastSet(scopes, SummaryRunes, 2400), 400, 12_000)
    ensures opts.targetPercent == TargetOf(scopes)
    ensures opts.compressPercent == Max(opts.targetPercent, CompressOf(scopes))
    ensures opts.idleTimeout == Wrap64(LastSet(scopes, IdleSeconds, 180) * 1_000_000_000)
  {
    opts := Options(modelLimit, 70, 80, 768, 6, 180 * SECOND, 2400);
    for i := 0 to |scopes|
      invariant opts.contextLimitTokens == LastSet(scopes[..i], MaxContext, modelLimit)
      invariant opts.outputReserveTokens == LastSet(scopes[..i], OutputReserve, 768)
      invariant opts.recentTurnLimit == ClampInt(LastSet(scopes[..i], RecentTurns, 6), 1, 32)
      invariant opts.summaryRuneLimit == ClampInt(LastSet(scopes[..i], SummaryRunes, 2400), 400, 12_000)
      invariant opts.targetPercent == TargetOf(scopes[..i])
      invariant opts.compressPercent == CompressOf(scopes[..i])
      invariant opts.idleTimeout == Wrap64(LastSet(scopes[..i], IdleSeconds, 180) * SECOND)
    {
      assert scopes[..i + 1][..i] == scopes[..i];
      var scoped := scopes[i];
      if scoped.maxContextTokens.Some? {
        opts := opts.(contextLimitTokens := scoped.maxContextTokens.value);
      }
      if scoped.targetContextPercent.Some? {
        opts := opts.(targetPercent := ClampInt(scoped.targetContextPercent.value, 20, 95));
      }
      if scoped.compressContextPercent.Some? {
        opts := opts.(compressPercent := ClampInt(scoped.compressContextPercent.value, opts.targetPercent, 98));
      }
      if scoped.outputReserveTokens.Some? {
        opts := opts.(outputReserveTokens := scoped.outputReserveTokens.value);
      }
      if scoped.recentTurns.Some? {
        opts := opts.(recentTurnLimit := ClampInt(scoped.recentTurns.value, 1, 32));
      }
      if scoped.idleTimeoutSeconds.Some? {
        opts := opts.(idleTimeout := Wrap64(scoped.idleTimeoutSeconds.value * SECOND));
      }
      if scoped.summaryRuneLimit.Some? {
        opts := opts.(summaryRuneLimit := ClampInt(scoped.summaryRuneLimit.value, 400, 12_000));
      }
    }
    assert scopes[..|scopes|] == scopes;
    if opts.contextLimitTokens < 2048 {
      opts := opts.(contextLimitTokens := 2048);
    }
    if opts.compressPercent < opts.targetPercent {
      opts := opts.(compressPercent := opts.targetPercent);
    }
  }

  /** The value the last scope to set a field gives it, or the default. */
  ghost function LastSet(scopes: seq<Scope>, setting: Setting, default: Int64): Int64 {
    if scopes == [] then default
    else
      var own := scopes[|scopes| - 1].Read(setting);
      if own.Some? then own.value else LastSet(scopes[..|scopes| - 1], setting, default)
  }
}
