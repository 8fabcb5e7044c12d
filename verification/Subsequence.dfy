/**
 The longest common subsequence of two texts: what it means, the recurrence behind the table,
 and the two-row rolling computation of internal/voicews/session.go:1571-1593.
 */
module Subsequence {
  import opened Common

  /** f lists, in increasing order, the positions of t at which the elements of s are found. */
  ghost predicate Embeds(s: string, t: string, f: seq<nat>) {
    && |f| == |s|
    && (forall i :: 0 <= i < |f| ==> f[i] < |t| && t[f[i]] == s[i])
    && (forall i, j :: 0 <= i < j < |f| ==> f[i] < f[j])
  }

  ghost predicate IsSubsequence(s: string, t: string) {
    exists f: seq<nat> :: Embeds(s, t, f)
  }

  ghost predicate IsCommon(c: string, a: string, b: string) {
    IsSubsequence(c, a) && IsSubsequence(c, b)
  }

  /** strings.Contains: part occurs in whole as a block. */
  predicate OccursAt(part: string, whole: string, at: nat) {
    at + |part| <= |whole| && whole[at..at + |part|] == part
  }

  /** The recurrence over prefixes that the table follows. */
  ghost function Lcs(a: string, b: string): nat
    decreases |a| + |b|
  {
    if a == "" || b == "" then 0
    else
      var a', b' := a[..|a| - 1], b[..|b| - 1];
      if a[|a| - 1] == b[|b| - 1] then Lcs(a', b') + 1 else Max(Lcs(a, b'), Lcs(a', b))
  }

  lemma EmbedsBefore(s: string, t: string, f: seq<nat>)
    requires Embeds(s, t, f) && t != ""
    requires s != "" ==> f[|s| - 1] < |t| - 1
    ensures IsSubsequence(s, t[..|t| - 1])
  {
    assert Embeds(s, t[..|t| - 1], f);
  }

  lemma EmbedsInit(s: string, t: string, f: seq<nat>)
    requires Embeds(s, t, f) && s != ""
    ensures t != "" && IsSubsequence(s[..|s| - 1], t[..|t| - 1])
  {
    var last := |s| - 1;
    assert t[f[last]] == s[last];
    assert Embeds(s[..last], t[..|t| - 1], f[..last]);
  }

  /** One more rune on the left gains at most one, and loses nothing. */
  lemma {:induction false} LcsGrowsLeft(a: string, b: string)
    requires a != ""
    ensures Lcs(a[..|a| - 1], b) <= Lcs(a, b) <= Lcs(a[..|a| - 1], b) + 1
    decreases |a| + |b|
  {
    if b != "" {
      LcsGrowsLeft(a, b[..|b| - 1]);
      if |a| > 1 {
        LcsGrowsRight(a[..|a| - 1], b);
      }
    }
  }

  lemma {:induction false} LcsGrowsRight(a: string, b: string)
    requires b != ""
    ensures Lcs(a, b[..|b| - 1]) <= Lcs(a, b) <= Lcs(a, b[..|b| - 1]) + 1
    decreases |a| + |b|
  {
    if a != "" {
      LcsGrowsRight(a[..|a| - 1], b);
      if |b| > 1 {
        LcsGrowsLeft(a, b[..|b| - 1]);
      }
    }
  }

  /** No common subsequence is longer than the recurrence says. */
  lemma {:induction false} LcsIsUpperBound(c: string, a: string, b: string)
    requires IsCommon(c, a, b)
    ensures |c| <= Lcs(a, b)
    decreases |a| + |b|
  {
    if c != "" {
      var f: seq<nat> :| Embeds(c, a, f);
      var g: seq<nat> :| Embeds(c, b, g);
      if f[|c| - 1] < |a| - 1 {
        EmbedsBefore(c, a, f);
        LcsIsUpperBound(c, a[..|a| - 1], b);
        LcsGrowsLeft(a, b);
      } else if g[|c| - 1] < |b| - 1 {
        EmbedsBefore(c, b, g);
        LcsIsUpperBound(c, a, b[..|b| - 1]);
        LcsGrowsRight(a, b);
      } else {
        EmbedsInit(c, a, f);
        EmbedsInit(c, b, g);
        LcsIsUpperBound(c[..|c| - 1], a[..|a| - 1], b[..|b| - 1]);
      }
    }
  }

  lemma EmbedsWiden(s: string, t: string, more: string)
    requires IsSubsequence(s, t)
    ensures IsSubsequence(s, t + more)
  {
    var f: seq<nat> :| Embeds(s, t, f);
    assert Embeds(s, t + more, f);
  }

  lemma EmbedsSnoc(s: string, t: string, r: char)
    requires IsSubsequence(s, t)
    ensures IsSubsequence(s + [r], t + [r])
  {
    var f: seq<nat> :| Embeds(s, t, f);
    assert Embeds(s + [r], t + [r], f + [|t|]);
  }

  /** Some common subsequence has the length the recurrence says. */
  lemma {:induction false} LcsIsAttained(a: string, b: string) returns (c: string)
    ensures IsCommon(c, a, b) && |c| == Lcs(a, b)
    decreases |a| + |b|
  {
    if a == "" || b == "" {
      c := "";
      assert Embeds(c, a, []) && Embeds(c, b, []);
    } else {
      var a', b', r := a[..|a| - 1], b[..|b| - 1], a[|a| - 1];
      assert a == a' + [r] && b == b' + [b[|b| - 1]];
      if r == b[|b| - 1] {
        var d := LcsIsAttained(a', b');
        EmbedsSnoc(d, a', r);
        EmbedsSnoc(d, b', r);
        c := d + [r];
      } else if Lcs(a, b') < Lcs(a', b) {
        c := LcsIsAttained(a', b);
        EmbedsWiden(c, a', [r]);
      } else {
        c := LcsIsAttained(a, b');
        EmbedsWiden(c, b', [b[|b| - 1]]);
      }
    }
  }

  /** The order of the two texts does not matter. */
  lemma {:induction false} LcsSymmetric(a: string, b: string)
    ensures Lcs(a, b) == Lcs(b, a)
  {
    var c := LcsIsAttained(a, b);
    var d := LcsIsAttained(b, a);
    LcsIsUpperBound(c, b, a);
    LcsIsUpperBound(d, a, b);
  }

  lemma LcsBounded(a: string, b: string)
    ensures Lcs(a, b) <= |a| && Lcs(a, b) <= |b|
  {
    var c := LcsIsAttained(a, b);
    var f: seq<nat> :| Embeds(c, a, f);
    var g: seq<nat> :| Embeds(c, b, g);
    EmbedsFits(c, a, f);
    EmbedsFits(c, b, g);
  }

  lemma {:induction false} EmbedsFits(s: string, t: string, f: seq<nat>)
    requires Embeds(s, t, f)
    ensures |s| <= |t|
  {
    if s != "" {
      assert Embeds(s[..|s| - 1], t[..f[|s| - 1]], f[..|s| - 1]);
      EmbedsFits(s[..|s| - 1], t[..f[|s| - 1]], f[..|s| - 1]);
    }
  }

  /** A text that occurs in another as a block is itself the longest common subsequence. */
  lemma {:induction false} LcsOfBlock(part: string, whole: string, at: nat)
    requires OccursAt(part, whole, at)
    ensures Lcs(part, whole) == |part| == Lcs(whole, part)
  {
    var f: seq<nat> := seq(|part|, i requires 0 <= i => at + i);
    assert Embeds(part, whole, f) by {
      forall i | 0 <= i < |part| ensures whole[f[i]] == part[i] {
        assert whole[at..at + |part|][i] == whole[at + i];
      }
    }
    assert Embeds(part, part, seq(|part|, i requires 0 <= i => i));
    LcsIsUpperBound(part, part, whole);
    LcsBounded(part, whole);
    LcsSymmetric(part, whole);
  }

  ghost predicate IsRow(row: seq<int>, a: string, right: string) {
    && |row| == |right| + 1
    && forall k :: 0 <= k <= |right| ==> row[k] == Lcs(a, right[..k])
  }

  lemma LcsStep(a: string, r: char, right: string, j: nat)
    requires j < |right|
    ensures Lcs(a + [r], right[..j + 1])
         == if r == right[j] then Lcs(a, right[..j]) + 1
            else Max(Lcs(a + [r], right[..j]), Lcs(a, right[..j + 1]))
  {
    assert (a + [r])[..|a|] == a;
    assert right[..j + 1][..j] == right[..j];
  }

  /** One row of the table: current is filled from previous for one more rune of the left text. */
  method FillRow(lr: char, right: string, previous: array<int>, current: array<int>, ghost a: string)
    requires previous != current && previous.Length == current.Length == |right| + 1
    requires IsRow(previous[..], a, right) && current[0] == 0
    modifies current
    ensures IsRow(current[..], a + [lr], right)
  {
    ghost var before := previous[..];
    for j := 0 to |right|
      invariant previous[..] == before
      invariant forall k :: 0 <= k <= j ==> current[k] == Lcs(a + [lr], right[..k])
    {
      LcsStep(a, lr, right, j);
      assert before[j] == Lcs(a, right[..j]) && before[j + 1] == Lcs(a, right[..j + 1]);
      if lr == right[j] {
        current[j + 1] := previous[j] + 1;
      } else {
        current[j + 1] := Max(current[j], previous[j + 1]);
      }
    }
  }

  method Zero(row: array<int>)
    modifies row
    ensures forall k :: 0 <= k < row.Length ==> row[k] == 0
  {
    for j := 0 to row.Length
      invariant forall k :: 0 <= k < j ==> row[k] == 0
    {
      row[j] := 0;
    }
  }

  /** The recurrence gives the greatest length of a common subsequence. */
  lemma LcsIsOptimal(a: string, b: string)
    ensures exists c :: IsCommon(c, a, b) && |c| == Lcs(a, b)
    ensures forall c :: IsCommon(c, a, b) ==> |c| <= Lcs(a, b)
  {
    var attained := LcsIsAttained(a, b);
    forall c | IsCommon(c, a, b) ensures |c| <= Lcs(a, b) {
      LcsIsUpperBound(c, a, b);
    }
  }

  /**
   longestCommonSubsequenceRunes: two rows, each rune of the left text filling `current` from `previous`;
   the rows then change places and the new `current` is zeroed.
   */
  method LongestCommonSubsequenceRunes(left: string, right: string) returns (n: nat)
    ensures exists c :: IsCommon(c, left, right) && |c| == n
    ensures forall c :: IsCommon(c, left, right) ==> |c| <= n
    ensures n == Lcs(left, right)
  {
    if |left| == 0 || |right| == 0 {
      LcsIsOptimal(left, right);
      return 0;
    }
    var previous := new int[|right| + 1](_ => 0);
    var current := new int[|right| + 1](_ => 0);
    for i := 0 to |left|
      invariant previous != current && fresh(previous) && fresh(current)
      invariant previous.Length == current.Length == |right| + 1
      invariant IsRow(previous[..], left[..i], right)
      invariant current[0] == 0
    {
      FillRow(left[i], right, previous, current, left[..i]);
      assert left[..i] + [left[i]] == left[..i + 1];
      previous, current := current, previous;
      ghost var filled := previous[..];
      Zero(current);
      assert previous[..] == filled;
    }
    assert left[..|left|] == left && right[..|right|] == right;
    n := previous[|right|];
    LcsIsOptimal(left, right);
  }
}
