/** JavaScript's String.prototype.trim, used by the chat UI to reject blank
    input and to tidy the assistant's reply. */
module JsString {

  /** The characters trim removes: ECMAScript WhiteSpace (tab, vertical tab,
      form feed, the byte order mark and every Unicode space separator) and
      LineTerminator (line feed, carriage return, U+2028, U+2029). */
  predicate IsWhitespace(c: char) {
    || c == '\t' || c == '\n' || c == '\U{000B}' || c == '\U{000C}' || c == '\r'
    || c == ' ' || c == '\U{00A0}' || c == '\U{1680}'
    || ('\U{2000}' <= c <= '\U{200A}')
    || c == '\U{2028}' || c == '\U{2029}' || c == '\U{202F}' || c == '\U{205F}'
    || c == '\U{3000}' || c == '\U{FEFF}'
  }

  /** Every character of s is whitespace (the empty string included). */
  predicate AllWhitespace(s: string) {
    forall i :: 0 <= i < |s| ==> IsWhitespace(s[i])
  }

  /** Drops leading whitespace: the result is a suffix of s, what was dropped
      is all whitespace, and the result does not start with whitespace. */
  function TrimStart(s: string): (r: string)
    ensures |r| <= |s| && r == s[|s| - |r|..]
    ensures forall i :: 0 <= i < |s| - |r| ==> IsWhitespace(s[i])
    ensures r == [] || !IsWhitespace(r[0])
  {
    if s != [] && IsWhitespace(s[0]) then TrimStart(s[1..]) else s
  }

  /** Drops trailing whitespace: the result is a prefix of s, what was dropped
      is all whitespace, and the result does not end with whitespace. */
  function TrimEnd(s: string): (r: string)
    ensures |r| <= |s| && r == s[..|r|]
    ensures forall i :: |r| <= i < |s| ==> IsWhitespace(s[i])
    ensures r == [] || !IsWhitespace(r[|r| - 1])
  {
    if s != [] && IsWhitespace(s[|s| - 1]) then TrimEnd(s[..|s| - 1]) else s
  }

  /** r is s with a whitespace margin of `a` characters removed in front and
      one of whatever length is left removed at the back. */
  predicate MarginsRemoved(s: string, r: string, a: int) {
    && 0 <= a <= |s| - |r| && r == s[a..a + |r|]
    && (forall i :: 0 <= i < a ==> IsWhitespace(s[i]))
    && (forall i :: a + |r| <= i < |s| ==> IsWhitespace(s[i]))
  }

  /** s.trim(): the result is the slice of s left after removing a margin of
      whitespace at each end, and neither of its ends is whitespace. */
  function Trim(s: string): (r: string)
    ensures r == [] || (!IsWhitespace(r[0]) && !IsWhitespace(r[|r| - 1]))
    ensures exists a :: MarginsRemoved(s, r, a)
  {
    TrimMargins(s);
    TrimEnd(TrimStart(s))
  }

  /** TrimEnd after TrimStart removes a whitespace margin at each end. */
  lemma TrimMargins(s: string)
    ensures MarginsRemoved(s, TrimEnd(TrimStart(s)), |s| - |TrimStart(s)|)
  {
    var t := TrimStart(s);
    SuffixThenPrefix(s, t, TrimEnd(t));
  }

  /** Cutting a whitespace prefix off s and then a whitespace suffix off what
      is left removes one margin at each end of s. */
  lemma SuffixThenPrefix(s: string, t: string, r: string)
    requires |t| <= |s| && t == s[|s| - |t|..]
    requires forall i :: 0 <= i < |s| - |t| ==> IsWhitespace(s[i])
    requires |r| <= |t| && r == t[..|r|]
    requires forall i :: |r| <= i < |t| ==> IsWhitespace(t[i])
    ensures MarginsRemoved(s, r, |s| - |t|)
  {
    var a := |s| - |t|;
    assert r == s[a..a + |r|];
    forall i | a + |r| <= i < |s|
      ensures IsWhitespace(s[i])
    {
      assert s[i] == t[i - a];
    }
  }

  /** Whitespace-only text loses everything to TrimStart. */
  lemma {:induction false} BlankTrimStart(s: string)
    requires AllWhitespace(s)
    ensures TrimStart(s) == []
  {
    if s != [] {
      BlankTrimStart(s[1..]);
    }
  }

  /** A non-whitespace character at k survives TrimStart. */
  lemma {:induction false} NonBlankTrimStart(s: string, k: nat)
    requires k < |s| && !IsWhitespace(s[k])
    ensures TrimStart(s) != []
  {
    if IsWhitespace(s[0]) {
      NonBlankTrimStart(s[1..], k - 1);
    }
  }

  /** A text that starts with non-whitespace keeps that start under TrimEnd. */
  lemma {:induction false} TrimEndKeepsHead(t: string)
    requires t != [] && !IsWhitespace(t[0])
    ensures TrimEnd(t) != []
  {
    if |t| > 1 && IsWhitespace(t[|t| - 1]) {
      TrimEndKeepsHead(t[..|t| - 1]);
    }
  }

  /** `s.trim() === ""` holds exactly when s is made of whitespace only. */
  lemma TrimEmptyIffBlank(s: string)
    ensures Trim(s) == [] <==> AllWhitespace(s)
  {
    if AllWhitespace(s) {
      BlankTrimStart(s);
    } else {
      var k :| 0 <= k < |s| && !IsWhitespace(s[k]);
      NonBlankTrimStart(s, k);
      TrimEndKeepsHead(TrimStart(s));
    }
  }
}
