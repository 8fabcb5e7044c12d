/**
 Text as a sequence of Unicode scalar values (Go runes), with the few string operations of the Go library
 that the voice session relies on, and the laws about trimming that the segmenter and the token estimator need.
 */
module Text {

  /** unicode.IsSpace: the White_Space property. */
  predicate IsSpace(c: char) {
    var u := c as int;
    || 0x09 <= u <= 0x0D
    || u == 0x20 || u == 0x85 || u == 0xA0 || u == 0x1680
    || u == 0x2028 || u == 0x2029 || u == 0x202F || u == 0x205F || u == 0x3000
    || 0x2000 <= u <= 0x200A
  }

  /** The 25 code points with that property, one by one. */
  lemma SpacesOneByOne(c: char)
    ensures IsSpace(c) <==>
              c as int in {0x09, 0x0A, 0x0B, 0x0C, 0x0D, 0x20, 0x85, 0xA0, 0x1680, 0x2000, 0x2001, 0x2002, 0x2003, 0x2004,
                           0x2005, 0x2006, 0x2007, 0x2008, 0x2009, 0x200A, 0x2028, 0x2029, 0x202F, 0x205F, 0x3000}
  {
  }

  ghost predicate AllSpace(s: string) {
    forall i :: 0 <= i < |s| ==> IsSpace(s[i])
  }

  function TrimLeft(s: string): string {
    if s != "" && IsSpace(s[0]) then TrimLeft(s[1..]) else s
  }

  function TrimRight(s: string): string {
    if s != "" && IsSpace(s[|s| - 1]) then TrimRight(s[..|s| - 1]) else s
  }

  /** strings.TrimSpace */
  function Trim(s: string): string {
    TrimRight(TrimLeft(s))
  }

  ghost predicate Trimmed(s: string) {
    s == "" || (!IsSpace(s[0]) && !IsSpace(s[|s| - 1]))
  }

  /** The runes of s that are not white space, in order. */
  ghost function NonSpace(s: string): string {
    if s == "" then "" else (if IsSpace(s[0]) then "" else [s[0]]) + NonSpace(s[1..])
  }

  lemma {:induction false} TrimLeftSplits(s: string) returns (lead: string)
    ensures s == lead + TrimLeft(s) && AllSpace(lead)
    ensures TrimLeft(s) != "" ==> !IsSpace(TrimLeft(s)[0])
  {
    if s != "" && IsSpace(s[0]) {
      var rest := TrimLeftSplits(s[1..]);
      lead := [s[0]] + rest;
    } else {
      lead := "";
    }
  }

  lemma {:induction false} TrimRightSplits(s: string) returns (trail: string)
    ensures s == TrimRight(s) + trail && AllSpace(trail)
    ensures TrimRight(s) != "" ==> !IsSpace(TrimRight(s)[|TrimRight(s)| - 1])
  {
    if s != "" && IsSpace(s[|s| - 1]) {
      var rest := TrimRightSplits(s[..|s| - 1]);
      trail := rest + [s[|s| - 1]];
    } else {
      trail := "";
    }
  }

  /** Trimming removes white space at both ends and nothing else. */
  lemma TrimSplits(s: string) returns (lead: string, trail: string)
    ensures s == lead + Trim(s) + trail
    ensures AllSpace(lead) && AllSpace(trail) && Trimmed(Trim(s))
  {
    lead := TrimLeftSplits(s);
    trail := TrimRightSplits(TrimLeft(s));
  }

  lemma {:induction false} NonSpaceAppend(a: string, b: string)
    ensures NonSpace(a + b) == NonSpace(a) + NonSpace(b)
  {
    if a == "" {
      assert a + b == b;
    } else {
      assert (a + b)[1..] == a[1..] + b;
      NonSpaceAppend(a[1..], b);
    }
  }

  lemma {:induction false} NonSpaceOfSpace(s: string)
    ensures NonSpace(s) == "" <==> AllSpace(s)
  {
    if s != "" {
      NonSpaceOfSpace(s[1..]);
      assert s == [s[0]] + s[1..];
    }
  }

  lemma NonSpaceTrim(s: string)
    ensures NonSpace(Trim(s)) == NonSpace(s)
  {
    var lead, trail := TrimSplits(s);
    NonSpaceAppend(lead + Trim(s), trail);
    NonSpaceAppend(lead, Trim(s));
    NonSpaceOfSpace(lead);
    NonSpaceOfSpace(trail);
  }

  lemma TrimBlank(s: string)
    ensures Trim(s) == "" <==> AllSpace(s)
  {
    var lead, trail := TrimSplits(s);
    NonSpaceTrim(s);
    NonSpaceOfSpace(s);
    if Trim(s) != "" {
      assert s[|lead|] == Trim(s)[0];
    }
  }

  lemma TrimIdempotent(s: string)
    requires Trimmed(s)
    ensures Trim(s) == s
  {
  }

  lemma TrimShortens(s: string)
    ensures |Trim(s)| <= |s|
  {
    var lead, trail := TrimSplits(s);
  }

  /** A text is cut into lead, core and trail in only one way. */
  lemma TrimUnique(s: string, lead: string, core: string, trail: string)
    requires s == lead + core + trail
    requires AllSpace(lead) && AllSpace(trail) && Trimmed(core) && core != ""
    ensures Trim(s) == core
  {
    var l, t := TrimSplits(s);
    TrimBlank(s);
    assert s[|lead|] == core[0];
    assert s[|l|] == Trim(s)[0];
    assert |l| == |lead|;
    assert s[|lead| + |core| - 1] == core[|core| - 1];
    assert s[|l| + |Trim(s)| - 1] == Trim(s)[|Trim(s)| - 1];
    assert |Trim(s)| == |core|;
    assert s[|lead|..|lead| + |core|] == core;
    assert s[|l|..|l| + |Trim(s)|] == Trim(s);
  }

  /** Trimming keeps the prefix order. */
  lemma TrimForgetsTrail(s: string, r: char)
    requires IsSpace(r)
    ensures Trim(s + [r]) == Trim(s)
  {
    var lead, trail := TrimSplits(s);
    TrimBlank(s);
    TrimBlank(s + [r]);
    if Trim(s) != "" {
      assert s + [r] == lead + Trim(s) + (trail + [r]);
      TrimUnique(s + [r], lead, Trim(s), trail + [r]);
    }
  }

  lemma TrimOfPrefix(p: string, s: string)
    requires p <= s
    ensures Trim(p) <= Trim(s)
  {
    var l, t := TrimSplits(p);
    TrimBlank(p);
    if Trim(p) != "" {
      var lead, trail := TrimSplits(s);
      TrimBlank(s);
      assert s[|l|] == p[|l|] == Trim(p)[0];
      assert s[|lead|] == Trim(s)[0];
      assert |l| == |lead|;
      var last := |l| + |Trim(p)| - 1;
      assert s[last] == p[last] == Trim(p)[|Trim(p)| - 1];
      assert last < |lead| + |Trim(s)|;
      SliceOfPrefix(p, l, Trim(p), t, s, lead, Trim(s), trail);
    }
  }

  lemma SliceOfPrefix(p: string, l: string, a: string, t: string, s: string, lead: string, b: string, trail: string)
    requires p <= s && p == l + a + t && s == lead + b + trail && |l| == |lead| && |a| <= |b|
    ensures a <= b
  {
    forall k | 0 <= k < |a| ensures a[k] == b[k] {
      assert p[|l| + k] == a[k] && s[|lead| + k] == b[k];
    }
  }

  /** truncateRunes (internal/voicews/session.go:2222) */
  function TruncateRunes(text: string, limit: int): (r: string)
    ensures r <= text
    ensures |r| == if limit <= 0 then 0 else if |text| <= limit then |text| else limit
  {
    if limit <= 0 then "" else if |text| <= limit then text else text[..limit]
  }

  /** strings.Join */
  function Join(parts: seq<string>, sep: string): string {
    if parts == [] then ""
    else if |parts| == 1 then parts[0]
    else parts[0] + sep + Join(parts[1..], sep)
  }
}
