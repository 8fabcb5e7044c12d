/**
 Echo suppression: does the latest transcript mostly repeat what the assistant said in the last seconds?
 internal/voicews/session.go:1458-1613 and 2000-2010.

 A score is a fraction with the number of transcript runes below the line, so only its numerator is kept
 and the thresholds are compared by cross-multiplication. Time is in milliseconds.
 */
module Echo {
  import opened Common
  import opened Subsequence
  import opened Text

  const RECENT_SPEECH_WINDOW := 20_000
  const RECENT_SPEECH_LIMIT := 4
  const ECHO_MIN_RUNES := 8

  /** The Unicode tables consulted by normalizeEchoText: lower case, and the runes it drops. */
  datatype EchoTables = EchoTables(lower: char -> char, dropped: char -> bool)

  function NormalizeEchoText(text: string, tables: EchoTables): string {
    if text == "" then ""
    else
      var r := tables.lower(text[0]);
      (if tables.dropped(r) then "" else [r]) + NormalizeEchoText(text[1..], tables)
  }

  /** The positions before `end` whose runes, in lower case, are not dropped. */
  function KeptBefore(text: string, end: nat, tables: EchoTables): set<nat> {
    set i: nat | i < end && i < |text| && !tables.dropped(tables.lower(text[i]))
  }

  /** Each rune that is kept stands, in lower case, behind the kept ones before it; and nothing else is there. */
  lemma {:induction false} NormalizedKeepsTheRest(text: string, tables: EchoTables, i: nat)
    requires i < |text|
    ensures var normalized, at := NormalizeEchoText(text, tables), |KeptBefore(text, i, tables)|;
            && |normalized| == |KeptBefore(text, |text|, tables)|
            && (!tables.dropped(tables.lower(text[i])) ==> at < |normalized| && normalized[at] == tables.lower(text[i]))
  {
    NormalizedLength(text, tables);
    KeptShifts(text, i, tables);
    if i > 0 {
      NormalizedKeepsTheRest(text[1..], tables, i - 1);
    } else {
      assert KeptBefore(text, 0, tables) == {};
    }
  }

  lemma {:induction false} NormalizedLength(text: string, tables: EchoTables)
    ensures |NormalizeEchoText(text, tables)| == |KeptBefore(text, |text|, tables)|
  {
    if text == "" {
      assert KeptBefore(text, 0, tables) == {};
    } else {
      NormalizedLength(text[1..], tables);
      KeptShifts(text, |text|, tables);
    }
  }

  /** Without the first rune the positions move down by one. */
  lemma KeptShifts(text: string, end: nat, tables: EchoTables)
    requires text != "" && end <= |text|
    ensures |KeptBefore(text, end, tables)|
            == if end == 0 then 0
               else (if tables.dropped(tables.lower(text[0])) then 0 else 1) + |KeptBefore(text[1..], end - 1, tables)|
  {
    var all := KeptBefore(text, end, tables);
    if end == 0 {
      assert all == {};
    } else {
      var rest := KeptBefore(text[1..], end - 1, tables);
      ShiftKeepsSize(rest);
      var moved := Shifted(rest);
      forall i: nat ensures i in all <==> (i in moved || (i == 0 && !tables.dropped(tables.lower(text[0])))) {
        if i > 0 && i < |text| {
          assert text[i] == text[1..][i - 1];
        }
        if i > 0 && i in all {
          assert i - 1 in rest;
        }
      }
      assert all == moved + if tables.dropped(tables.lower(text[0])) then {} else {0};
      assert 0 !in moved;
    }
  }

  function Shifted(s: set<nat>): set<nat> {
    set i: nat | i in s :: i + 1
  }

  lemma {:induction false} ShiftKeepsSize(s: set<nat>)
    ensures |Shifted(s)| == |s|
  {
    if s != {} {
      var x :| x in s;
      var less := s - {x};
      ShiftKeepsSize(less);
      assert s == less + {x};
      forall y ensures y in Shifted(s) <==> y in Shifted(less) || y == x + 1 {
        if y == x + 1 {
          assert x in s;
        }
      }
      assert Shifted(s) == Shifted(less) + {x + 1};
    }
  }

  predicate Contains(whole: string, part: string) {
    exists at | 0 <= at <= |whole| :: OccursAt(part, whole, at)
  }

  /** The decision, stated by cases. */
  ghost predicate Matches(asr: string, candidate: string) {
    && asr != "" && candidate != ""
    && if Contains(candidate, asr) then true
       else if Contains(asr, candidate) then |asr| - |candidate| <= Max(2, |asr| / 10)
       else 100 * Lcs(asr, candidate) >= 86 * |asr| && 100 * Lcs(asr, candidate) >= 55 * |candidate|
  }

  lemma ContainsGivesLcs(whole: string, part: string)
    requires Contains(whole, part)
    ensures Lcs(part, whole) == |part| == Lcs(whole, part)
  {
    var at :| 0 <= at <= |whole| && OccursAt(part, whole, at);
    LcsOfBlock(part, whole, at);
  }

  /** whole is part with something, or nothing, on either side. */
  ghost predicate Inside(part: string, whole: string) {
    exists before, after :: whole == before + part + after
  }

  lemma ContainsIsInside(whole: string, part: string)
    ensures Contains(whole, part) <==> Inside(part, whole)
  {
    if Contains(whole, part) {
      var at :| 0 <= at <= |whole| && OccursAt(part, whole, at);
      assert whole == whole[..at] + part + whole[at + |part|..];
    }
    if Inside(part, whole) {
      var before, after :| whole == before + part + after;
      assert OccursAt(part, whole, |before|);
    }
  }

  /** Enough runes in common, in order: 86 percent of the transcript's and 55 percent of the candidate's. */
  ghost predicate ShareEnough(asr: string, candidate: string) {
    exists common :: IsCommon(common, asr, candidate) && 100 * |common| >= 86 * |asr| && 100 * |common| >= 55 * |candidate|
  }

  /** The decision in terms of the two texts alone. */
  lemma MatchesInWords(asr: string, candidate: string)
    ensures Matches(asr, candidate) <==>
              && asr != "" && candidate != ""
              && (|| Inside(asr, candidate)
                  || (Inside(candidate, asr) && (|asr| - |candidate| <= 2 || |asr| - |candidate| <= |asr| / 10))
                  || (!Inside(candidate, asr) && ShareEnough(asr, candidate)))
  {
    ContainsIsInside(asr, candidate);
    ContainsIsInside(candidate, asr);
    LcsIsOptimal(asr, candidate);
    if ShareEnough(asr, candidate) {
      var common :| IsCommon(common, asr, candidate) && 100 * |common| >= 86 * |asr| && 100 * |common| >= 55 * |candidate|;
      assert |common| <= Lcs(asr, candidate);
    }
  }

  /** A reported echo repeats at least four fifths of the transcript, in order. */
  lemma MatchCoversTranscript(asr: string, candidate: string)
    requires |asr| >= ECHO_MIN_RUNES && |candidate| >= ECHO_MIN_RUNES
    requires Matches(asr, candidate)
    ensures 5 * Lcs(asr, candidate) >= 4 * |asr|
  {
    if Contains(candidate, asr) {
      ContainsGivesLcs(candidate, asr);
    } else if Contains(asr, candidate) {
      ContainsGivesLcs(asr, candidate);
    }
  }

  /**
   Without the eight-rune minimum the bound of four fifths is missed exactly by candidates that lie inside a longer
   transcript and are themselves less than four fifths of it.
   */
  lemma MatchEscapesTheBoundIff(asr: string, candidate: string)
    requires Matches(asr, candidate)
    ensures 5 * Lcs(asr, candidate) < 4 * |asr|
            <==> !Contains(candidate, asr) && Contains(asr, candidate) && 5 * |candidate| < 4 * |asr|
  {
    if Contains(candidate, asr) {
      ContainsGivesLcs(candidate, asr);
    } else if Contains(asr, candidate) {
      ContainsGivesLcs(asr, candidate);
    }
  }

  /** Such pairs are there one rune below the minimum, which is therefore sharp. */
  lemma ShortTextsEscapeTheBound()
    ensures |"abcdefg"| == ECHO_MIN_RUNES - 1
    ensures Matches("abcdefgxy", "abcdefg")
    ensures 5 * Lcs("abcdefgxy", "abcdefg") < 4 * |"abcdefgxy"|
  {
    var asr, candidate := "abcdefgxy", "abcdefg";
    assert OccursAt(candidate, asr, 0);
    assert Contains(asr, candidate);
    ContainsGivesLcs(asr, candidate);
  }

  /** recentSpeechEchoScore: in every branch the score is Lcs(asr, candidate) / |asr|, between 0 and 1. */
  method RecentSpeechEchoScore(asr: string, candidate: string) returns (score: nat, matched: bool)
    ensures score == Lcs(asr, candidate) && score <= |asr|
    ensures matched <==> Matches(asr, candidate)
  {
    LcsBounded(asr, candidate);
    if |asr| == 0 || |candidate| == 0 {
      return 0, false;
    }
    if Contains(candidate, asr) {
      ContainsGivesLcs(candidate, asr);
      return |asr|, true;
    }
    if Contains(asr, candidate) {
      ContainsGivesLcs(asr, candidate);
      var extra := |asr| - |candidate|;
      return |candidate|, extra <= Max(2, |asr| / 10);
    }
    var common := LongestCommonSubsequenceRunes(asr, candidate);
    return common, 100 * common >= 86 * |asr| && 100 * common >= 55 * |candidate|;
  }

  datatype Spoken = Spoken(text: string, at: int)

  /** The texts of the items, trimmed. */
  ghost function TextsOf(items: seq<Spoken>): (texts: seq<string>)
    ensures |texts| == |items|
  {
    seq(|items|, i requires 0 <= i < |items| => Trim(items[i].text))
  }

  /** The trimmed texts of a stretch of speech, joined by one blank; blank ones leave no mark. */
  ghost function WindowText(texts: seq<string>): string {
    if texts == [] then ""
    else Joined(WindowText(texts[..|texts| - 1]), texts[|texts| - 1])
  }

  /** The texts that are not empty, in order. */
  function NotEmpty(texts: seq<string>): seq<string> {
    if texts == [] then []
    else NotEmpty(texts[..|texts| - 1]) + if texts[|texts| - 1] == "" then [] else [texts[|texts| - 1]]
  }

  /** A window is its texts with one blank between any two. */
  lemma {:induction false} WindowIsJoined(texts: seq<string>)
    ensures WindowText(texts) == Text.Join(NotEmpty(texts), " ")
    ensures NoneEmpty(NotEmpty(texts))
  {
    if texts != [] {
      var n := |texts| - 1;
      WindowIsJoined(texts[..n]);
      if texts[n] != "" {
        JoinSnoc(NotEmpty(texts[..n]), texts[n]);
      } else {
        assert NotEmpty(texts[..n]) + [] == NotEmpty(texts[..n]);
      }
    }
  }

  ghost predicate NoneEmpty(parts: seq<string>) {
    forall k :: 0 <= k < |parts| ==> parts[k] != ""
  }

  lemma {:induction false} JoinSnoc(parts: seq<string>, last: string)
    requires last != "" && NoneEmpty(parts)
    ensures Text.Join(parts + [last], " ") == if parts == [] then last else Text.Join(parts, " ") + " " + last
    ensures parts != [] ==> Text.Join(parts, " ") != ""
  {
    if parts == [] {
      assert parts + [last] == [last];
    } else {
      assert (parts + [last])[1..] == parts[1..] + [last];
      JoinSnoc(parts[1..], last);
      assert parts[0] != "";
      var a, b := parts[0] + " ", Text.Join(parts[1..], " ");
      assert a + (b + (" " + last)) == a + b + (" " + last);
    }
  }

  ghost predicate IsWindow(texts: seq<string>, start: nat, end: nat, text: string) {
    && start <= end < |texts|
    && texts[end] != ""
    && text == WindowText(texts[start..end + 1])
  }

  ghost predicate IsCandidate(texts: seq<string>, text: string) {
    exists start: nat, end: nat :: IsWindow(texts, start, end, text)
  }

  /** The candidates contributed by the stretches that begin at start and end before end. */
  ghost function RowCandidates(texts: seq<string>, start: nat, end: nat): seq<string>
    requires start <= end <= |texts|
  {
    if end == start then []
    else
      var text := texts[end - 1];
      RowCandidates(texts, start, end - 1)
      + if text == "" then [] else if end - 1 > start then [text, WindowText(texts[start..end])] else [text]
  }

  ghost function AllCandidates(texts: seq<string>, starts: nat): seq<string>
    requires starts <= |texts|
  {
    if starts == 0 then [] else AllCandidates(texts, starts - 1) + RowCandidates(texts, starts - 1, |texts|)
  }

  lemma SingleWindow(texts: seq<string>, at: nat)
    requires at < |texts|
    ensures WindowText(texts[at..at + 1]) == texts[at]
  {
    assert texts[at..at + 1][..0] == [];
    assert WindowText(texts[at..at + 1][..0]) == "";
  }

  lemma {:induction false} RowSound(texts: seq<string>, start: nat, end: nat, c: string) returns (s: nat, e: nat)
    requires start <= end <= |texts| && c in RowCandidates(texts, start, end)
    ensures IsWindow(texts, s, e, c)
    decreases end
  {
    if c in RowCandidates(texts, start, end - 1) {
      s, e := RowSound(texts, start, end - 1, c);
    } else {
      SingleWindow(texts, end - 1);
      e := end - 1;
      s := if c == texts[e] then e else start;
    }
  }

  lemma {:induction false} RowComplete(texts: seq<string>, start: nat, end: nat, e: nat, c: string)
    requires start <= end <= |texts| && e < end && IsWindow(texts, start, e, c)
    ensures c in RowCandidates(texts, start, end)
    decreases end
  {
    if e < end - 1 {
      RowComplete(texts, start, end - 1, e, c);
    } else if start == e {
      SingleWindow(texts, e);
    }
  }

  lemma {:induction false} AllSound(texts: seq<string>, starts: nat, c: string) returns (s: nat, e: nat)
    requires starts <= |texts| && c in AllCandidates(texts, starts)
    ensures IsWindow(texts, s, e, c)
  {
    if c in AllCandidates(texts, starts - 1) {
      s, e := AllSound(texts, starts - 1, c);
    } else {
      s, e := RowSound(texts, starts - 1, |texts|, c);
    }
  }

  lemma {:induction false} AllComplete(texts: seq<string>, starts: nat, s: nat, e: nat, c: string)
    requires starts <= |texts| && s < starts && IsWindow(texts, s, e, c)
    ensures c in AllCandidates(texts, starts)
  {
    if s < starts - 1 {
      AllComplete(texts, starts - 1, s, e, c);
    } else {
      RowComplete(texts, s, |texts|, e, c);
    }
  }

  /** The candidates are exactly the texts of the contiguous stretches that end in a non-blank item. */
  lemma CandidatesAreTheWindows(texts: seq<string>, c: string)
    ensures c in AllCandidates(texts, |texts|) <==> IsCandidate(texts, c)
  {
    if c in AllCandidates(texts, |texts|) {
      var s, e := AllSound(texts, |texts|, c);
    }
    if IsCandidate(texts, c) {
      var s: nat, e: nat :| IsWindow(texts, s, e, c);
      AllComplete(texts, |texts|, s, e, c);
    }
  }

  function Joined(combined: string, text: string): string {
    if text == "" then combined else if combined == "" then text else combined + " " + text
  }

  /** What one more item adds to the joined text and to the candidates. */
  lemma RowStep(texts: seq<string>, start: nat, end: nat, combined: string)
    requires start <= end < |texts|
    requires combined == WindowText(texts[start..end])
    ensures WindowText(texts[start..end + 1]) == Joined(combined, texts[end])
    ensures RowCandidates(texts, start, end + 1) == RowCandidates(texts, start, end)
         + if texts[end] == "" then [] else if end > start then [texts[end], Joined(combined, texts[end])] else [texts[end]]
  {
    var longer := texts[start..end + 1];
    assert longer[..|longer| - 1] == texts[start..end] && longer[|longer| - 1] == texts[end];
  }

  /** recentSpeechCandidates */
  method RecentSpeechCandidates(items: seq<Spoken>) returns (candidates: seq<string>)
    ensures candidates == AllCandidates(TextsOf(items), |items|)
  {
    candidates := [];
    for start := 0 to |items|
      invariant candidates == AllCandidates(TextsOf(items), start)
    {
      var row := CandidatesFrom(items, start);
      candidates := candidates + row;
    }
  }

  /** The inner loop of recentSpeechCandidates. */
  method CandidatesFrom(items: seq<Spoken>, start: nat) returns (row: seq<string>)
    requires start < |items|
    ensures row == RowCandidates(TextsOf(items), start, |items|)
  {
    ghost var texts := TextsOf(items);
    var combined := "";
    row := [];
    for end := start to |items|
      invariant combined == WindowText(texts[start..end])
      invariant row == RowCandidates(texts, start, end)
    {
      var text := Trim(items[end].text);
      RowStep(texts, start, end, combined);
      if text == "" {
        continue;
      }
      if |combined| > 0 {
        combined := combined + " ";
      }
      combined := combined + text;
      if end > start {
        row := row + [text, combined];
      } else {
        row := row + [text];
      }
    }
  }

  /** The items not older than the cutoff, in order. */
  function Unexpired(items: seq<Spoken>, cutoff: int): seq<Spoken> {
    if items == [] then []
    else
      var last := items[|items| - 1];
      Unexpired(items[..|items| - 1], cutoff) + if last.at < cutoff then [] else [last]
  }

  lemma {:induction false} UnexpiredKeeps(items: seq<Spoken>, cutoff: int)
    ensures |Unexpired(items, cutoff)| <= |items|
    ensures forall x :: x in Unexpired(items, cutoff) <==> x in items && x.at >= cutoff
    ensures |Unexpired(items, cutoff)| == |items| ==> Unexpired(items, cutoff) == items
  {
    if items != [] {
      var n := |items| - 1;
      UnexpiredKeeps(items[..n], cutoff);
      assert items == items[..n] + [items[n]];
    }
  }

  /** The loop that drops expired items, in rememberRecentSpeech and in recentSpeechSnapshot. */
  method DropExpired(items: seq<Spoken>, cutoff: int) returns (kept: seq<Spoken>)
    ensures kept == Unexpired(items, cutoff)
  {
    kept := [];
    for i := 0 to |items|
      invariant kept == Unexpired(items[..i], cutoff)
    {
      assert items[..i + 1][..i] == items[..i];
      if items[i].at < cutoff {
        continue;
      }
      kept := kept + [items[i]];
    }
    assert items[..|items|] == items;
  }

  /** What rememberRecentSpeech leaves: the new text last, the unexpired older items before it, four at most. */
  ghost function Remembered(items: seq<Spoken>, text: string, now: int, tables: EchoTables): seq<Spoken> {
    Capped(Joining(Unexpired(items, now - RECENT_SPEECH_WINDOW), Trim(text), now,
                   s => NormalizeEchoText(s, tables)))
  }

  /** A text that repeats the last one takes its place. */
  function Joining(kept: seq<Spoken>, text: string, now: int, normalize: string -> string): seq<Spoken> {
    var n := |kept|;
    var repeated := n > 0 && normalize(kept[n - 1].text) == normalize(text);
    (if repeated then kept[..n - 1] else kept) + [Spoken(text, now)]
  }

  /** The last four. */
  function Capped<T(==)>(s: seq<T>): (r: seq<T>)
    ensures |r| <= RECENT_SPEECH_LIMIT
    ensures forall x :: x in r ==> x in s
    ensures s != [] ==> r != [] && r[|r| - 1] == s[|s| - 1]
  {
    if |s| > RECENT_SPEECH_LIMIT then s[|s| - RECENT_SPEECH_LIMIT..] else s
  }

  lemma LastFour<T>(kept: seq<T>, last: T)
    ensures var r := Capped(kept + [last]);
            |r| == Min(4, |kept| + 1) && r[|r| - 1] == last && r[..|r| - 1] == kept[|kept| + 1 - |r|..]
  {
  }

  /** The items not older than twenty seconds, but for the last of them if it says the same as the new text. */
  ghost predicate KeptBeside(items: seq<Spoken>, text: string, now: int, tables: EchoTables, kept: seq<Spoken>) {
    var recent := Unexpired(items, now - 20_000);
    if recent != [] && NormalizeEchoText(recent[|recent| - 1].text, tables) == NormalizeEchoText(Trim(text), tables)
    then kept == recent[..|recent| - 1] else kept == recent
  }

  /** The new text comes last, and before it the newest of the items kept, at most four in all. */
  lemma RememberedInWords(items: seq<Spoken>, text: string, now: int, tables: EchoTables) returns (kept: seq<Spoken>)
    ensures KeptBeside(items, text, now, tables, kept)
    ensures var r := Remembered(items, text, now, tables);
            && |r| == Min(4, |kept| + 1) && r[|r| - 1] == Spoken(Trim(text), now)
            && r[..|r| - 1] == kept[|kept| + 1 - |r|..]
  {
    var recent := Unexpired(items, now - RECENT_SPEECH_WINDOW);
    var n := |recent|;
    var repeated := n > 0 && NormalizeEchoText(recent[n - 1].text, tables) == NormalizeEchoText(Trim(text), tables);
    kept := if repeated then recent[..n - 1] else recent;
    LastFour(kept, Spoken(Trim(text), now));
  }

  /** An eligible candidate: long enough, and the text of some stretch of the speech within the window. */
  ghost predicate Eligible(spoken: seq<Spoken>, now: int, tables: EchoTables, candidate: string) {
    && IsCandidate(TextsOf(Unexpired(spoken, now - RECENT_SPEECH_WINDOW)), candidate)
    && |NormalizeEchoText(candidate, tables)| >= ECHO_MIN_RUNES
  }

  /** Some eligible candidate matches the normalised transcript. */
  ghost predicate SomeMatch(spoken: seq<Spoken>, now: int, tables: EchoTables, asr: string) {
    exists c :: Eligible(spoken, now, tables, c) && Matches(asr, NormalizeEchoText(c, tables))
  }

  /** No eligible candidate shares more than score runes with the transcript. */
  ghost predicate BestScore(spoken: seq<Spoken>, now: int, tables: EchoTables, asr: string, score: nat) {
    forall c :: Eligible(spoken, now, tables, c) ==> Lcs(asr, NormalizeEchoText(c, tables)) <= score
  }

  /** Too short to count, or not a match and with a score of at most bound. */
  ghost predicate Unmatched(asr: string, candidate: string, tables: EchoTables, bound: nat) {
    var normalized := NormalizeEchoText(candidate, tables);
    |normalized| >= ECHO_MIN_RUNES ==> !Matches(asr, normalized) && Lcs(asr, normalized) <= bound
  }

  /** What scanning the candidates in order establishes. */
  ghost predicate Scanned(candidates: seq<string>, asr: string, tables: EchoTables,
                          text: string, score: nat, found: bool)
  {
    if found then
      var normalized := NormalizeEchoText(text, tables);
      text in candidates && Scores(asr, text, tables, score) && Matches(asr, normalized)
    else
      && (forall c :: c in candidates ==> Unmatched(asr, c, tables, score))
      && (score == 0 ==> text == "")
      && (score > 0 ==> text in candidates && Scores(asr, text, tables, score))
  }

  /** The text is long enough to count and has this score. */
  ghost predicate Scores(asr: string, text: string, tables: EchoTables, score: nat) {
    var normalized := NormalizeEchoText(text, tables);
    |normalized| >= ECHO_MIN_RUNES && score == Lcs(asr, normalized)
  }

  /** The loop of mostlyRecentSpeechEcho. */
  method FirstEcho(candidates: seq<string>, asr: string, tables: EchoTables)
    returns (text: string, score: nat, found: bool)
    ensures Scanned(candidates, asr, tables, text, score, found)
  {
    text, score := "", 0;
    for i := 0 to |candidates|
      invariant forall k :: 0 <= k < i ==> Unmatched(asr, candidates[k], tables, score)
      invariant if score == 0 then text == "" else text in candidates && Scores(asr, text, tables, score)
    {
      var candidate := candidates[i];
      var normalized := NormalizeEchoText(candidate, tables);
      if |normalized| < ECHO_MIN_RUNES {
        continue;
      }
      var candidateScore, matched := RecentSpeechEchoScore(asr, normalized);
      if candidateScore > score {
        text, score := candidate, candidateScore;
      }
      if matched {
        return candidate, candidateScore, true;
      }
    }
    return text, score, false;
  }

  /** Scanning every candidate decides the question for every stretch of recent speech. */
  lemma WindowsDecide(spoken: seq<Spoken>, now: int, tables: EchoTables, asr: string,
                      text: string, score: nat, found: bool)
    requires |asr| >= ECHO_MIN_RUNES
    requires var items := Unexpired(spoken, now - RECENT_SPEECH_WINDOW);
             Scanned(AllCandidates(TextsOf(items), |items|), asr, tables, text, score, found)
    ensures found <==> SomeMatch(spoken, now, tables, asr)
    ensures found ==> Eligible(spoken, now, tables, text) && 5 * score >= 4 * |asr|
    ensures !found ==> BestScore(spoken, now, tables, asr, score)
    ensures !found && score > 0 ==> Eligible(spoken, now, tables, text)
  {
    var items := Unexpired(spoken, now - RECENT_SPEECH_WINDOW);
    CandidatesAreTheWindows(TextsOf(items), text);
    if found {
      MatchCoversTranscript(asr, NormalizeEchoText(text, tables));
    } else {
      forall c | Eligible(spoken, now, tables, c) ensures Unmatched(asr, c, tables, score) {
        CandidatesAreTheWindows(TextsOf(items), c);
      }
    }
  }

  /** The part of the session that remembers recent speech. */
  class SpeechMemory {
    var recentSpeech: seq<Spoken>
    const tables: EchoTables

    constructor (tables: EchoTables)
      ensures Valid() && recentSpeech == [] && this.tables == tables
    {
      this.tables := tables;
      recentSpeech := [];
    }

    /** At most four items, each of them long enough to be told from chance. */
    ghost predicate Valid()
      reads this
    {
      && |recentSpeech| <= RECENT_SPEECH_LIMIT
      && forall item :: item in recentSpeech ==>
           |NormalizeEchoText(item.text, tables)| >= ECHO_MIN_RUNES
    }

    method RememberRecentSpeech(rawText: string, now: int)
      requires Valid()
      modifies this
      ensures Valid()
      ensures recentSpeech ==
              if |NormalizeEchoText(Trim(rawText), tables)| < ECHO_MIN_RUNES then old(recentSpeech)
              else Remembered(old(recentSpeech), rawText, now, tables)
    {
      var text := Trim(rawText);
      if text == "" {
        return;
      }
      var normalized := NormalizeEchoText(text, tables);
      if |normalized| < ECHO_MIN_RUNES {
        return;
      }
      var cutoff := now - RECENT_SPEECH_WINDOW;
      var next := DropExpired(recentSpeech, cutoff);
      UnexpiredKeeps(recentSpeech, cutoff);
      recentSpeech := Join(next, text, now);
    }

    /** The new text joins the items kept; it takes the place of the last one if it repeats it. */
    method Join(kept: seq<Spoken>, text: string, now: int) returns (next: seq<Spoken>)
      ensures next == Capped(Joining(kept, text, now, s => NormalizeEchoText(s, tables)))
      ensures forall item :: item in next ==> item in kept || item == Spoken(text, now)
    {
      var normalize := s => NormalizeEchoText(s, tables);
      if |kept| > 0 && normalize(kept[|kept| - 1].text) == normalize(text) {
        next := kept[..|kept| - 1] + [Spoken(text, now)];
      } else {
        next := kept + [Spoken(text, now)];
      }
      if |next| > RECENT_SPEECH_LIMIT {
        next := next[|next| - RECENT_SPEECH_LIMIT..];
      }
    }

    /** recentSpeechSnapshot: forgets expired items on the way. */
    method RecentSpeechSnapshot(now: int) returns (items: seq<Spoken>)
      requires Valid()
      modifies this
      ensures Valid()
      ensures items == recentSpeech == Unexpired(old(recentSpeech), now - RECENT_SPEECH_WINDOW)
    {
      var cutoff := now - RECENT_SPEECH_WINDOW;
      items := DropExpired(recentSpeech, cutoff);
      UnexpiredKeeps(recentSpeech, cutoff);
      if |items| != |recentSpeech| {
        recentSpeech := items;
      }
    }

    /**
     mostlyRecentSpeechEcho: reports a match exactly when some eligible candidate matches, and then names one;
     otherwise it names the best score seen, which no eligible candidate beats and, unless it is 0, the named one has.
     */
    method MostlyRecentSpeechEcho(asrText: string, now: int) returns (text: string, score: nat, found: bool)
      requires Valid()
      modifies this
      ensures Valid()
      ensures var asr := NormalizeEchoText(asrText, tables);
              found <==> |asr| >= ECHO_MIN_RUNES && SomeMatch(old(recentSpeech), now, tables, asr)
      ensures var asr, candidate := NormalizeEchoText(asrText, tables), NormalizeEchoText(text, tables);
              found ==> && Eligible(old(recentSpeech), now, tables, text)
                        && Matches(asr, candidate)
                        && score == Lcs(asr, candidate)
                        && 5 * score >= 4 * |asr|
      ensures var asr := NormalizeEchoText(asrText, tables);
              !found && |asr| >= ECHO_MIN_RUNES ==> BestScore(old(recentSpeech), now, tables, asr, score)
      ensures var asr := NormalizeEchoText(asrText, tables);
              !found ==> if score == 0 then text == ""
                         else Eligible(old(recentSpeech), now, tables, text)
                              && score == Lcs(asr, NormalizeEchoText(text, tables))
      ensures recentSpeech ==
              if |NormalizeEchoText(asrText, tables)| < ECHO_MIN_RUNES then old(recentSpeech)
              else Unexpired(old(recentSpeech), now - RECENT_SPEECH_WINDOW)
    {
      var asr := NormalizeEchoText(asrText, tables);
      if |asr| < ECHO_MIN_RUNES {
        return "", 0, false;
      }
      var items := RecentSpeechSnapshot(now);
      var candidates := RecentSpeechCandidates(items);
      text, score, found := FirstEcho(candidates, asr, tables);
      WindowsDecide(old(recentSpeech), now, tables, asr, text, score, found);
    }
  }
}
