/**
 * String helpers with JavaScript's meaning: `String.prototype.trim` (used by
 * Joi's `.trim()` and Mongoose's `trim: true`), the `\d` class of a
 * non-Unicode regular expression, and case-insensitive substring search.
 */
module Text {

  /** The characters `String.prototype.trim` strips: WhiteSpace and LineTerminator. */
  predicate IsWhitespace(c: char) {
    || c == '\t' || c == '\n' || c == '\U{B}' || c == '\U{C}' || c == '\r'
    || c == ' ' || c == '\U{A0}' || c == '\U{1680}'
    || ('\U{2000}' <= c <= '\U{200A}')
    || c == '\U{2028}' || c == '\U{2029}' || c == '\U{202F}' || c == '\U{205F}'
    || c == '\U{3000}' || c == '\U{FEFF}'
  }

  /** The regular-expression `\d` without the `u` flag: ASCII digits only. */
  predicate IsDigit(c: char) {
    '0' <= c <= '9'
  }

  predicate AllDigits(s: string) {
    forall i :: 0 <= i < |s| ==> IsDigit(s[i])
  }

  function TrimStart(s: string): (r: string)
    ensures |r| <= |s| && r == s[|s| - |r|..]
    ensures r == [] || !IsWhitespace(r[0])
    ensures forall i :: 0 <= i < |s| - |r| ==> IsWhitespace(s[i])
  {
    if s != [] && IsWhitespace(s[0]) then TrimStart(s[1..]) else s
  }

  function TrimEnd(s: string): (r: string)
    ensures |r| <= |s| && r == s[..|r|]
    ensures r == [] || !IsWhitespace(r[|r| - 1])
    ensures forall i :: |r| <= i < |s| ==> IsWhitespace(s[i])
  {
    if s != [] && IsWhitespace(s[|s| - 1]) then TrimEnd(s[..|s| - 1]) else s
  }

  /**
   * `s.trim()`: whitespace cut from both ends, so that the result neither
   * starts nor ends with whitespace.
   */
  function Trim(s: string): (r: string)
    ensures |r| <= |s|
    ensures r == [] || (!IsWhitespace(r[0]) && !IsWhitespace(r[|r| - 1]))
  {
    TrimEnd(TrimStart(s))
  }

  /** Trimming a string that already neither starts nor ends with whitespace changes nothing. */
  lemma {:induction false} TrimOfTrimmed(s: string)
    requires s == [] || (!IsWhitespace(s[0]) && !IsWhitespace(s[|s| - 1]))
    ensures Trim(s) == s
  {
  }

  lemma TrimIdempotent(s: string)
    ensures Trim(Trim(s)) == Trim(s)
  {
    TrimOfTrimmed(Trim(s));
  }

  /** Whitespace in front of a string that does not start with whitespace is cut away. */
  lemma {:induction false} TrimStartPadded(pad: string, s: string)
    requires forall i :: 0 <= i < |pad| ==> IsWhitespace(pad[i])
    requires s == [] || !IsWhitespace(s[0])
    ensures TrimStart(pad + s) == s
  {
    if pad == [] {
      assert pad + s == s;
    } else {
      assert (pad + s)[0] == pad[0];
      assert (pad + s)[1..] == pad[1..] + s;
      TrimStartPadded(pad[1..], s);
    }
  }

  /** Whitespace after a string that does not end with whitespace is cut away. */
  lemma {:induction false} TrimEndPadded(s: string, pad: string)
    requires forall i :: 0 <= i < |pad| ==> IsWhitespace(pad[i])
    requires s == [] || !IsWhitespace(s[|s| - 1])
    ensures TrimEnd(s + pad) == s
  {
    if pad == [] {
      assert s + pad == s;
    } else {
      var last := |pad| - 1;
      assert (s + pad)[|s + pad| - 1] == pad[last];
      assert (s + pad)[..|s + pad| - 1] == s + pad[..last];
      TrimEndPadded(s, pad[..last]);
    }
  }

  /** Trimming cuts exactly the whitespace around a string whose ends are not whitespace. */
  lemma TrimPadded(front: string, s: string, back: string)
    requires forall i :: 0 <= i < |front| ==> IsWhitespace(front[i])
    requires forall i :: 0 <= i < |back| ==> IsWhitespace(back[i])
    requires s != [] && !IsWhitespace(s[0]) && !IsWhitespace(s[|s| - 1])
    ensures Trim(front + s + back) == s
  {
    assert front + s + back == front + (s + back);
    TrimStartPadded(front, s + back);
    TrimEndPadded(s, back);
  }

  /** A string made of whitespace only trims to the empty string. */
  lemma {:induction false} TrimAllWhitespace(s: string)
    requires forall i :: 0 <= i < |s| ==> IsWhitespace(s[i])
    ensures Trim(s) == []
  {
    if s != [] {
      TrimAllWhitespace(s[1..]);
    }
  }

  /** ASCII case folding, the only folding this model gives the `i` flag. */
  function Lower(c: char): (d: char)
    ensures 'A' <= c <= 'Z' ==> 'a' <= d <= 'z' && d as int == c as int + 32
    ensures !('A' <= c <= 'Z') ==> d == c
  {
    if 'A' <= c <= 'Z' then (c as int + 32) as char else c
  }

  predicate EqualIgnoringCase(a: string, b: string) {
    |a| == |b| && forall i :: 0 <= i < |a| ==> Lower(a[i]) == Lower(b[i])
  }

  /** `needle` occurs in `hay` at position `at`, ignoring ASCII case. */
  predicate MatchesAt(hay: string, needle: string, at: int) {
    0 <= at && at + |needle| <= |hay| && EqualIgnoringCase(hay[at..at + |needle|], needle)
  }

  /** Left-to-right search for `needle` in `hay`, ignoring ASCII case. */
  function ContainsIgnoringCase(hay: string, needle: string): (found: bool)
    decreases |hay|
  {
    if |needle| <= |hay| && EqualIgnoringCase(hay[..|needle|], needle) then true
    else if hay == [] then false
    else ContainsIgnoringCase(hay[1..], needle)
  }

  lemma ShiftMatch(hay: string, needle: string, at: int)
    requires hay != [] && 0 <= at
    ensures MatchesAt(hay[1..], needle, at) <==> MatchesAt(hay, needle, at + 1)
  {
    if at + |needle| <= |hay| - 1 {
      assert hay[1..][at..at + |needle|] == hay[at + 1..at + 1 + |needle|];
    }
  }

  /** The search finds the needle exactly when it occurs somewhere. */
  lemma {:induction false} ContainsIgnoringCaseMeans(hay: string, needle: string)
    ensures ContainsIgnoringCase(hay, needle) <==> exists at :: MatchesAt(hay, needle, at)
    decreases |hay|
  {
    if |needle| <= |hay| {
      assert hay[..|needle|] == hay[0..0 + |needle|];
    }
    if |needle| <= |hay| && EqualIgnoringCase(hay[..|needle|], needle) {
      assert MatchesAt(hay, needle, 0);
    } else if hay != [] {
      ContainsIgnoringCaseMeans(hay[1..], needle);
      if ContainsIgnoringCase(hay[1..], needle) {
        var at :| MatchesAt(hay[1..], needle, at);
        ShiftMatch(hay, needle, at);
      } else {
        forall at | 0 < at
          ensures !MatchesAt(hay, needle, at)
        {
          ShiftMatch(hay, needle, at - 1);
        }
      }
    }
  }
}
