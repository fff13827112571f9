/** The display name shared by patients and doctors: `$"{LastName} {FirstName} {MiddleName}".Trim()`. */
module Names {
  import opened Wrappers
  import opened Text

  /** The interpolated "Last First Middle" text before trimming; an absent middle name contributes nothing. */
  function Joined(last: string, first: string, middle: Option<string>): string {
    last + " " + first + " " + middle.GetOr("")
  }

  /** The full name: the joined text, trimmed. */
  function FullNameOf(last: string, first: string, middle: Option<string>): (r: string)
    ensures IsTrimmed(r)
    ensures |r| <= |last| + |first| + |middle.GetOr("")| + 2
  {
    Trim(Joined(last, first, middle))
  }

  /** Trimming after appending white space gives the same as trimming before. */
  lemma {:induction false} TrimEndAppendSpace(s: string, w: string)
    requires AllWhiteSpace(w)
    ensures TrimEnd(s + w) == TrimEnd(s)
  {
    if w != [] {
      var t := s + w;
      assert t[..|t| - 1] == s + w[..|w| - 1];
      TrimEndAppendSpace(s, w[..|w| - 1]);
    } else {
      assert s + w == s;
    }
  }

  /**
   * With non-blank, trimmed name parts the full name is exactly
   * "Last First Middle", or "Last First" when the middle name is absent
   * or empty, so no stray separator is left at the end.
   */
  lemma FullNameOfTrimmedParts(last: string, first: string, middle: Option<string>)
    requires last != [] && first != [] && IsTrimmed(last) && IsTrimmed(first)
    requires middle.Some? ==> IsTrimmed(middle.value)
    ensures middle.Some? && middle.value != [] ==> FullNameOf(last, first, middle) == last + " " + first + " " + middle.value
    ensures middle.None? || middle == Some("") ==> FullNameOf(last, first, middle) == last + " " + first
  {
    var body := last + " " + first + " " + middle.GetOr("");
    assert body[0] == last[0];
    assert TrimStart(body) == body;
    if middle.Some? && middle.value != [] {
      assert body[|body| - 1] == middle.value[|middle.value| - 1];
      assert TrimEnd(body) == body;
    } else {
      var core := last + " " + first;
      assert body == core + " ";
      TrimEndAppendSpace(core, " ");
      assert core[|core| - 1] == first[|first| - 1];
      assert TrimEnd(core) == core;
    }
  }
}
