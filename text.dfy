/**
 * Python's `str.strip()` with no argument, as the calendar store applies it to
 * titles and descriptions (core/calendar.py:82, 86, 108, 116).
 */
module Text {
  /** The characters for which Python's `str.isspace()` holds. */
  predicate IsWhitespace(c: char) {
    || c == ' ' || c == '\t' || c == '\n' || c == '\r' || c == '\U{000B}' || c == '\U{000C}'
    || ('\U{001C}' <= c <= '\U{001F}') || c == '\U{0085}' || c == '\U{00A0}' || c == '\U{1680}'
    || ('\U{2000}' <= c <= '\U{200A}') || c == '\U{2028}' || c == '\U{2029}' || c == '\U{202F}'
    || c == '\U{205F}' || c == '\U{3000}'
  }

  predicate AllWhitespace(s: string) {
    forall i | 0 <= i < |s| :: IsWhitespace(s[i])
  }

  /** Removes the leading whitespace. */
  function TrimStart(s: string): (r: string)
    ensures |r| <= |s|
  {
    if s != [] && IsWhitespace(s[0]) then TrimStart(s[1..]) else s
  }

  /** Removes the trailing whitespace. */
  function TrimEnd(s: string): (r: string)
    ensures |r| <= |s|
  {
    if s != [] && IsWhitespace(s[|s| - 1]) then TrimEnd(s[..|s| - 1]) else s
  }

  /** What `TrimStart` leaves is a suffix of `s` that does not start with whitespace, and it removed only whitespace. */
  lemma {:induction false} TrimStartRemovesWhitespace(s: string)
    ensures var r := TrimStart(s);
      && r == s[|s| - |r|..]
      && AllWhitespace(s[..|s| - |r|])
      && (r == [] || !IsWhitespace(r[0]))
  {
    if s != [] && IsWhitespace(s[0]) {
      var t := s[1..];
      TrimStartRemovesWhitespace(t);
      var r := TrimStart(t);
      assert t[|t| - |r|..] == s[|s| - |r|..];
      var removed := s[..|s| - |r|];
      forall i | 0 <= i < |removed|
        ensures IsWhitespace(removed[i])
      {
        if i > 0 {
          assert removed[i] == t[..|t| - |r|][i - 1];
        }
      }
    }
  }

  /** What `TrimEnd` leaves is a prefix of `s` that does not end with whitespace, and it removed only whitespace. */
  lemma {:induction false} TrimEndRemovesWhitespace(s: string)
    ensures var r := TrimEnd(s);
      && r == s[..|r|]
      && AllWhitespace(s[|r|..])
      && (r == [] || !IsWhitespace(r[|r| - 1]))
  {
    if s != [] && IsWhitespace(s[|s| - 1]) {
      var t := s[..|s| - 1];
      TrimEndRemovesWhitespace(t);
      var r := TrimEnd(t);
      assert t[..|r|] == s[..|r|];
      forall i | |r| <= i < |s|
        ensures IsWhitespace(s[i])
      {
        if i < |s| - 1 {
          assert s[i] == t[|r|..][i - |r|];
        }
      }
    }
  }

  /** `s.strip()`. */
  function Strip(s: string): (r: string)
    ensures |r| <= |s|
  {
    TrimEnd(TrimStart(s))
  }

  /** The number of whitespace characters `strip()` removes from the front of `s`. */
  function LeadingWhitespace(s: string): (n: nat)
    ensures n <= |s|
  {
    |s| - |TrimStart(s)|
  }

  /**
   * `s.strip()` is the slice of `s` that remains once the whitespace at both
   * ends is removed: everything removed is whitespace, and neither end of the
   * result is.
   */
  lemma StripRemovesOuterWhitespace(s: string)
    ensures var r, lead := Strip(s), LeadingWhitespace(s);
      && lead + |r| <= |s|
      && r == s[lead..lead + |r|]
      && AllWhitespace(s[..lead]) && AllWhitespace(s[lead + |r|..])
      && (r == [] || (!IsWhitespace(r[0]) && !IsWhitespace(r[|r| - 1])))
  {
    var t := TrimStart(s);
    var r := TrimEnd(t);
    var lead := |s| - |t|;
    TrimStartRemovesWhitespace(s);
    TrimEndRemovesWhitespace(t);
    assert s[lead..lead + |r|] == r;
    assert s[lead + |r|..] == t[|r|..];
  }

  /** Stripping yields the empty string exactly when the input is all whitespace. */
  lemma StripEmptyIffAllWhitespace(s: string)
    ensures Strip(s) == [] <==> AllWhitespace(s)
  {
    StripRemovesOuterWhitespace(s);
    var lead := LeadingWhitespace(s);
    if Strip(s) == [] {
      assert s == s[..lead] + s[lead..];
      forall i | 0 <= i < |s|
        ensures IsWhitespace(s[i])
      {
        if i >= lead {
          assert s[i] == s[lead..][i - lead];
        }
      }
    } else {
      assert Strip(s)[0] == s[lead];
    }
  }

  /** A string with no whitespace at either end is left as it is. */
  lemma StripKeepsTrimmed(s: string)
    requires s != [] ==> !IsWhitespace(s[0]) && !IsWhitespace(s[|s| - 1])
    ensures Strip(s) == s
  {
    assert TrimStart(s) == s;
    assert TrimEnd(s) == s;
  }

  /** Stripping twice is stripping once. */
  lemma StripIdempotent(s: string)
    ensures Strip(Strip(s)) == Strip(s)
  {
    var r := Strip(s);
    StripRemovesOuterWhitespace(s);
    StripKeepsTrimmed(r);
  }
}
