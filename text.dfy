/** The string operations the chat store relies on: JavaScript's
    `String.prototype.trim` and the "blank input" test built on it. */
module Text {

  /** The characters `trim` removes: ECMAScript WhiteSpace (TAB, VT, FF,
      ZWNBSP and the Unicode space separators) and LineTerminator (LF, CR,
      LS, PS). */
  predicate IsWhitespace(c: char): (r: bool)
    ensures c < '\U{0080}' ==> (r <==> c in "\t\n\U{000B}\U{000C}\r ")
  {
    c == '\t' || c == '\U{000B}' || c == '\U{000C}' || c == ' ' ||
    c == '\U{00A0}' || c == '\U{1680}' || ('\U{2000}' <= c <= '\U{200A}') ||
    c == '\U{202F}' || c == '\U{205F}' || c == '\U{3000}' || c == '\U{FEFF}' ||
    c == '\n' || c == '\r' || c == '\U{2028}' || c == '\U{2029}'
  }

  /** Every character of `s` is whitespace (the empty string included). */
  predicate IsBlank(s: string): (r: bool)
    ensures r <==> TrimStart(s) == []
  {
    forall j :: 0 <= j < |s| ==> IsWhitespace(s[j])
  }

  /** Drops the leading whitespace: the result is the longest suffix of `s`
      that does not start with whitespace, and everything dropped is
      whitespace. */
  function TrimStart(s: string): (r: string)
    ensures |r| <= |s| && r == s[|s| - |r|..]
    ensures forall j :: 0 <= j < |s| - |r| ==> IsWhitespace(s[j])
    ensures r == [] || !IsWhitespace(r[0])
    decreases |s|
  {
    if s != [] && IsWhitespace(s[0]) then TrimStart(s[1..]) else s
  }

  /** Drops the trailing whitespace: the result is the longest prefix of `s`
      that does not end with whitespace, and everything dropped is
      whitespace. */
  function TrimEnd(s: string): (r: string)
    ensures |r| <= |s| && r == s[..|r|]
    ensures forall j :: |r| <= j < |s| ==> IsWhitespace(s[j])
    ensures r == [] || !IsWhitespace(r[|r| - 1])
    decreases |s|
  {
    if s != [] && IsWhitespace(s[|s| - 1]) then TrimEnd(s[..|s| - 1]) else s
  }

  /** `s.trim()`: whitespace removed from both ends. The result is the
      slice of `s` that starts where its leading whitespace ends, and only
      whitespace lies before and after that slice. */
  function Trim(s: string): (r: string)
    ensures var a := |s| - |TrimStart(s)|;
      a + |r| <= |s| && r == s[a..a + |r|] &&
      (forall j :: 0 <= j < a ==> IsWhitespace(s[j])) &&
      (forall j :: a + |r| <= j < |s| ==> IsWhitespace(s[j]))
    ensures r == [] || (!IsWhitespace(r[0]) && !IsWhitespace(r[|r| - 1]))
  {
    TrimEnd(TrimStart(s))
  }

  /** `s.trim() === ''` holds exactly when `s` is blank. */
  lemma TrimEmptyIffBlank(s: string)
    ensures Trim(s) == [] <==> IsBlank(s)
  {
  }

  /** The test `s.trim() === ''`, computed on the trimmed string and
      answered in terms of the characters of `s`. */
  method TrimmedIsEmpty(s: string) returns (empty: bool)
    ensures empty <==> IsBlank(s)
  {
    TrimEmptyIffBlank(s);
    empty := Trim(s) == "";
  }
}
