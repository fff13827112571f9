/**
 * The .NET string operations the search and the validators rely on:
 * `char.IsWhiteSpace`, `string.IsNullOrWhiteSpace`, `Trim`, `ToLower`,
 * `StartsWith`, `EndsWith` and `Contains`, on strings of Unicode characters.
 */
module Text {
  import opened Wrappers

  /** `char.IsWhiteSpace`: the separators (Zs, Zl, Zp) and U+0009..U+000D, U+0085. */
  predicate IsWhiteSpace(c: char) {
    || ('\U{0009}' <= c <= '\U{000D}')
    || c == ' ' || c == '\U{0085}' || c == '\U{00A0}' || c == '\U{1680}'
    || ('\U{2000}' <= c <= '\U{200A}')
    || c == '\U{2028}' || c == '\U{2029}' || c == '\U{202F}' || c == '\U{205F}' || c == '\U{3000}'
  }

  /** Every character of `s` is white space (true of the empty string). */
  predicate AllWhiteSpace(s: string) {
    forall i :: 0 <= i < |s| ==> IsWhiteSpace(s[i])
  }

  /** `string.IsNullOrWhiteSpace`. */
  predicate IsNullOrWhiteSpace(s: Option<string>) {
    s.None? || AllWhiteSpace(s.value)
  }

  /** `s` neither starts nor ends with white space. */
  predicate IsTrimmed(s: string) {
    s == [] || (!IsWhiteSpace(s[0]) && !IsWhiteSpace(s[|s| - 1]))
  }

  /** Joining two all-white-space strings gives an all-white-space string. */
  lemma AllWhiteSpaceConcat(a: string, b: string)
    requires AllWhiteSpace(a) && AllWhiteSpace(b)
    ensures AllWhiteSpace(a + b)
  {
  }

  /** A character outside the Basic Multilingual Plane, which UTF-16 stores as a surrogate pair. */
  predicate IsSupplementary(c: char) {
    c > '\U{FFFF}'
  }

  /**
   * `string.Length`: the number of UTF-16 code units, two for each
   * supplementary character and one for every other character.
   */
  function Utf16Length(s: string): (n: nat)
    ensures |s| <= n <= 2 * |s|
    ensures n == |s| <==> forall i :: 0 <= i < |s| ==> !IsSupplementary(s[i])
    ensures n == 2 * |s| <==> forall i :: 0 <= i < |s| ==> IsSupplementary(s[i])
  {
    if s == [] then 0
    else
      var rest := Utf16Length(s[1..]);
      assert forall i :: 1 <= i < |s| ==> s[i] == s[1..][i - 1];
      (if IsSupplementary(s[0]) then 2 else 1) + rest
  }

  /** `TrimStart()`: drops the longest all-white-space prefix. */
  function TrimStart(s: string): (r: string)
    ensures |r| <= |s| && r == s[|s| - |r|..]
    ensures AllWhiteSpace(s[..|s| - |r|])
    ensures r == [] || !IsWhiteSpace(r[0])
  {
    if s != [] && IsWhiteSpace(s[0]) then
      var r := TrimStart(s[1..]);
      assert s[..|s| - |r|] == [s[0]] + s[1..][..|s| - 1 - |r|];
      AllWhiteSpaceConcat([s[0]], s[1..][..|s| - 1 - |r|]);
      r
    else s
  }

  /** `TrimEnd()`: drops the longest all-white-space suffix. */
  function TrimEnd(s: string): (r: string)
    ensures |r| <= |s| && r == s[..|r|]
    ensures AllWhiteSpace(s[|r|..])
    ensures r == [] || !IsWhiteSpace(r[|r| - 1])
  {
    if s != [] && IsWhiteSpace(s[|s| - 1]) then
      var r := TrimEnd(s[..|s| - 1]);
      assert s[|r|..] == s[..|s| - 1][|r|..] + [s[|s| - 1]];
      AllWhiteSpaceConcat(s[..|s| - 1][|r|..], [s[|s| - 1]]);
      r
    else s
  }

  /** `Trim()`: white space removed from both ends, the characters between kept as they were. */
  function Trim(s: string): (r: string)
    ensures exists i, j :: 0 <= i <= j <= |s| && r == s[i..j] && AllWhiteSpace(s[..i]) && AllWhiteSpace(s[j..])
    ensures IsTrimmed(r)
    ensures r == [] <==> AllWhiteSpace(s)
    ensures |r| <= |s|
  {
    var m := TrimStart(s);
    var r := TrimEnd(m);
    TrimmedEmptyIffBlank(s);
    assert r != [] ==> r[0] == m[0];
    TrimKeepsMiddle(s);
    r
  }

  /** What `TrimStart` then `TrimEnd` leave is the slice of `s` between a white-space prefix and a white-space suffix. */
  lemma TrimKeepsMiddle(s: string)
    ensures exists i, j :: 0 <= i <= j <= |s| && TrimEnd(TrimStart(s)) == s[i..j] && AllWhiteSpace(s[..i]) && AllWhiteSpace(s[j..])
  {
    var m := TrimStart(s);
    var r := TrimEnd(m);
    PrefixOfSuffix(s, m, r);
  }

  /** A prefix `r` of a suffix `m` of `s` is a slice of `s`, and what follows `r` in `m` is what follows it in `s`. */
  lemma PrefixOfSuffix(s: string, m: string, r: string)
    requires |m| <= |s| && m == s[|s| - |m|..]
    requires |r| <= |m| && r == m[..|r|]
    ensures r == s[|s| - |m|..|s| - |m| + |r|]
    ensures s[|s| - |m| + |r|..] == m[|r|..]
  {
  }

  /** Removing white space from both ends leaves nothing exactly when there was nothing else. */
  lemma TrimmedEmptyIffBlank(s: string)
    ensures TrimEnd(TrimStart(s)) == [] <==> AllWhiteSpace(s)
  {
    var m := TrimStart(s);
    if AllWhiteSpace(s) {
      BlankTrimsAway(s);
    }
    if TrimEnd(m) == [] {
      assert m[0..] == m;
      assert s[..|s|] == s;
    }
  }

  /** `TrimStart` of an all-white-space string is empty. */
  lemma {:induction false} BlankTrimsAway(s: string)
    requires AllWhiteSpace(s)
    ensures TrimStart(s) == []
  {
    if s != [] {
      BlankTrimsAway(s[1..]);
    }
  }

  /** Trimming a string that is already trimmed changes nothing. */
  lemma TrimOfTrimmed(s: string)
    requires IsTrimmed(s)
    ensures Trim(s) == s
  {
  }

  /** `Trim` is idempotent. */
  lemma TrimIdempotent(s: string)
    ensures Trim(Trim(s)) == Trim(s)
  {
    TrimOfTrimmed(Trim(s));
  }

  /**
   * `char.ToLower` for the alphabets the clinic's data uses: Basic Latin,
   * Latin-1 and Cyrillic (with the Ukrainian Є, І, Ї and Ґ). Every other
   * character is left as it is.
   */
  function LowerChar(c: char): char {
    if 'A' <= c <= 'Z' || ('\U{00C0}' <= c <= '\U{00DE}' && c != '\U{00D7}') || ('\U{0410}' <= c <= '\U{042F}') then
      (c as int + 32) as char
    else if '\U{0400}' <= c <= '\U{040F}' then
      (c as int + 80) as char
    else if c == '\U{0490}' then
      '\U{0491}'
    else
      c
  }

  /** `ToLower()`: lower-cases every character, keeping the length. */
  function Lower(s: string): (r: string)
    ensures |r| == |s|
    ensures forall i :: 0 <= i < |s| ==> r[i] == LowerChar(s[i])
  {
    if s == [] then [] else [LowerChar(s[0])] + Lower(s[1..])
  }

  /** Lower-casing a lower-cased string changes nothing. */
  lemma LowerIdempotent(s: string)
    ensures Lower(Lower(s)) == Lower(s)
  {
    var l := Lower(s);
    assert forall i :: 0 <= i < |s| ==> Lower(l)[i] == LowerChar(LowerChar(s[i]));
  }

  /** Lower-casing neither creates nor removes white space. */
  lemma LowerKeepsWhiteSpace(c: char)
    ensures IsWhiteSpace(LowerChar(c)) <==> IsWhiteSpace(c)
  {
  }

  /** Lower-casing and trimming commute, so the search term does not depend on their order. */
  lemma {:induction false} TrimLowerCommute(s: string)
    ensures Trim(Lower(s)) == Lower(Trim(s))
  {
    TrimStartLower(s);
    TrimEndLower(TrimStart(s));
  }

  lemma {:induction false} TrimStartLower(s: string)
    ensures TrimStart(Lower(s)) == Lower(TrimStart(s))
  {
    if s != [] {
      LowerKeepsWhiteSpace(s[0]);
      assert Lower(s)[1..] == Lower(s[1..]);
      if IsWhiteSpace(s[0]) {
        TrimStartLower(s[1..]);
      }
    }
  }

  lemma {:induction false} TrimEndLower(s: string)
    ensures TrimEnd(Lower(s)) == Lower(TrimEnd(s))
  {
    if s != [] {
      LowerKeepsWhiteSpace(s[|s| - 1]);
      assert Lower(s)[..|s| - 1] == Lower(s[..|s| - 1]);
      if IsWhiteSpace(s[|s| - 1]) {
        TrimEndLower(s[..|s| - 1]);
      }
    }
  }

  /** Ordinal `s.StartsWith(p)`. */
  predicate StartsWith(s: string, p: string) {
    |p| <= |s| && s[..|p|] == p
  }

  /** Ordinal `s.EndsWith(p)`. */
  predicate EndsWith(s: string, p: string) {
    |p| <= |s| && s[|s| - |p|..] == p
  }

  /** Ordinal `s.Contains(p)`: `p` occurs in `s` at some position. */
  predicate Contains(s: string, p: string) {
    exists i :: 0 <= i <= |s| - |p| && OccursAt(s, p, i)
  }

  /** `p` occurs in `s` starting at index `i`. */
  predicate OccursAt(s: string, p: string, i: int) {
    0 <= i <= |s| - |p| && s[i..i + |p|] == p
  }

  /** A string joined from three parts starts with the first and ends with the last. */
  lemma JoinedAffixes(a: string, sep: string, b: string)
    ensures StartsWith(a + sep + b, a) && EndsWith(a + sep + b, b)
  {
    var r := a + sep + b;
    assert r[..|a|] == a;
    assert r[|r| - |b|..] == b;
  }
}
