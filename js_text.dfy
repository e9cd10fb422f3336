/** The JavaScript string built-ins the chat controller relies on:
    `String.prototype.trim` and the `\s` class of regular expressions. Both
    use the same set of characters: ECMAScript's WhiteSpace and
    LineTerminator code points. */
module JsText {

  /** WhiteSpace (tab, vertical tab, form feed, space, no-break space, byte
      order mark and Unicode category Zs) and LineTerminator (LF, CR, U+2028,
      U+2029). */
  predicate IsWhitespace(c: char)
    ensures c as int < 128 ==> (IsWhitespace(c) <==> 9 <= c as int <= 13 || c == ' ')
  {
    || c == '\t' || c == '\n' || c == '\U{000B}' || c == '\U{000C}' || c == '\r'
    || c == ' ' || c == '\U{00A0}' || c == '\U{1680}'
    || ('\U{2000}' <= c <= '\U{200A}')
    || c == '\U{2028}' || c == '\U{2029}' || c == '\U{202F}' || c == '\U{205F}'
    || c == '\U{3000}' || c == '\U{FEFF}'
  }

  /** Every character is whitespace (the empty string included). */
  predicate IsBlank(s: string) {
    forall i :: 0 <= i < |s| ==> IsWhitespace(s[i])
  }

  /** The length of the leading whitespace of `s`. */
  function LeadingWhitespace(s: string): (n: nat)
    ensures n <= |s|
    ensures forall i :: 0 <= i < n ==> IsWhitespace(s[i])
    ensures n < |s| ==> !IsWhitespace(s[n])
  {
    if |s| > 0 && IsWhitespace(s[0]) then 1 + LeadingWhitespace(s[1..]) else 0
  }

  /** Where the trailing whitespace of `s` begins. */
  function TrailingWhitespace(s: string): (m: nat)
    ensures m <= |s|
    ensures forall i :: m <= i < |s| ==> IsWhitespace(s[i])
    ensures m > 0 ==> !IsWhitespace(s[m - 1])
  {
    if |s| > 0 && IsWhitespace(s[|s| - 1]) then TrailingWhitespace(s[..|s| - 1]) else |s|
  }

  /** `s.trim()`: the leading whitespace removed, then the trailing
      whitespace of what is left. The result is a contiguous part of `s`
      that neither starts nor ends with whitespace, everything cut off is
      whitespace, and it is empty exactly when `s` is blank (so `!s.trim()`
      is the blank test). */
  function Trim(s: string): (r: string)
    ensures r == [] <==> IsBlank(s)
    ensures r == [] || (!IsWhitespace(r[0]) && !IsWhitespace(r[|r| - 1]))
    ensures var k := LeadingWhitespace(s);
      && k + |r| <= |s| && r == s[k..k + |r|]
      && (forall i :: 0 <= i < k ==> IsWhitespace(s[i]))
      && (forall i :: k + |r| <= i < |s| ==> IsWhitespace(s[i]))
  {
    var t := s[LeadingWhitespace(s)..];
    t[..TrailingWhitespace(t)]
  }

  /** `trim` removes exactly the padding: a text that neither starts nor
      ends with whitespace, surrounded by whitespace, trims to itself. */
  lemma TrimPadded(pre: string, text: string, post: string)
    requires IsBlank(pre) && IsBlank(post)
    requires text != [] && !IsWhitespace(text[0]) && !IsWhitespace(text[|text| - 1])
    ensures Trim(pre + text + post) == text
  {
    var s := pre + text + post;
    var r := Trim(s);
    var k := LeadingWhitespace(s);
    assert s[|pre|] == text[0];
    assert k == |pre|;
    assert s[|pre| + |text| - 1] == text[|text| - 1];
    assert r != [] by {
      assert !IsWhitespace(s[|pre|]);
    }
    assert !IsWhitespace(s[|pre| + |text| - 1]);
    assert !IsWhitespace(s[k + |r| - 1]) by {
      assert s[k + |r| - 1] == r[|r| - 1];
    }
    assert k + |r| == |pre| + |text|;
    assert r == s[|pre|..|pre| + |text|];
  }
}
