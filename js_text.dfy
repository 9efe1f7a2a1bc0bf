/**
 * The two JavaScript string primitives the components rely on:
 * `String.prototype.trim` (used as the blank test `!s.trim()`) and
 * `String.prototype.toLowerCase` (used for case-insensitive comparison).
 */
module JsText {

  /**
   * The characters `trim` removes: ECMAScript's WhiteSpace (tab, vertical
   * tab, form feed, space, no-break space, the byte order mark and the
   * space separators of Unicode category Zs) and LineTerminator (line
   * feed, carriage return, line and paragraph separator).
   */
  predicate IsSpace(c: char)
  {
    c == '\t' || c == '\U{B}' || c == '\U{C}' || c == ' ' || c == '\U{A0}' || c == '\U{FEFF}'
    || c == '\U{1680}' || ('\U{2000}' <= c <= '\U{200A}') || c == '\U{202F}' || c == '\U{205F}'
    || c == '\U{3000}' || c == '\n' || c == '\r' || c == '\U{2028}' || c == '\U{2029}'
  }

  /** `s.trimStart()`: drops the leading white space. */
  function TrimStart(s: string): (r: string)
    ensures |r| <= |s| && r == s[|s| - |r|..]
    ensures r == [] || !IsSpace(r[0])
    ensures forall i :: 0 <= i < |s| - |r| ==> IsSpace(s[i])
  {
    if s != [] && IsSpace(s[0]) then TrimStart(s[1..]) else s
  }

  /** `s.trimEnd()`: drops the trailing white space. */
  function TrimEnd(s: string): (r: string)
    ensures |r| <= |s| && r == s[..|r|]
    ensures r == [] || !IsSpace(r[|r| - 1])
    ensures forall i :: |r| <= i < |s| ==> IsSpace(s[i])
  {
    if s != [] && IsSpace(s[|s| - 1]) then TrimEnd(s[..|s| - 1]) else s
  }

  /** `r` is what is left of `s` once `a` characters in front and everything after `r` are dropped, all white space. */
  ghost predicate IsMiddle(s: string, a: int, r: string)
  {
    && 0 <= a <= |s| - |r| && r == s[a..a + |r|]
    && (forall i :: 0 <= i < a ==> IsSpace(s[i]))
    && (forall i :: a + |r| <= i < |s| ==> IsSpace(s[i]))
  }

  /** `s.trim()`: the middle of `s` left once white space is dropped from both ends. */
  function Trim(s: string): (r: string)
    ensures exists a :: IsMiddle(s, a, r)
    ensures r == [] || (!IsSpace(r[0]) && !IsSpace(r[|r| - 1]))
  {
    var t := TrimStart(s);
    var r := TrimEnd(t);
    assert IsMiddle(s, |s| - |t|, r);
    r
  }

  /** The string has nothing but white space (see `BlankIffTrimEmpty`). */
  predicate IsBlank(s: string)
  {
    forall i :: 0 <= i < |s| ==> IsSpace(s[i])
  }

  /** `!s.trim()`: a string is empty once trimmed exactly when it is blank. */
  lemma BlankIffTrimEmpty(s: string)
    ensures Trim(s) == [] <==> IsBlank(s)
  {
  }

  /**
   * `toLowerCase` on one character. Only the ASCII letters are folded;
   * every other character is left unchanged.
   */
  function LowerChar(c: char): (r: char)
    ensures 'A' <= c <= 'Z' ==> 'a' <= r <= 'z' && r as int - c as int == 32
    ensures !('A' <= c <= 'Z') ==> r == c
  {
    if 'A' <= c <= 'Z' then (c as int + 32) as char else c
  }

  /** `s.toLowerCase()` (and `s.toLocaleLowerCase()`), character by character. */
  function ToLower(s: string): (r: string)
    ensures |r| == |s|
    ensures forall i :: 0 <= i < |s| ==> r[i] == LowerChar(s[i])
  {
    seq(|s|, i requires 0 <= i < |s| => LowerChar(s[i]))
  }

  /** Two strings are equal up to letter case: same length, and letter by letter equal once folded. */
  predicate EqualIgnoringCase(a: string, b: string): (eq: bool)
    ensures eq <==> |a| == |b| && forall i :: 0 <= i < |a| ==> LowerChar(a[i]) == LowerChar(b[i])
  {
    ToLower(a) == ToLower(b)
  }

  /** The characters that lower-case to a given lower-case ASCII letter. */
  lemma LowerCharTo(c: char, lo: char)
    requires 'a' <= lo <= 'z'
    ensures LowerChar(c) == lo <==> c == lo || c as int == lo as int - 32
  {
  }

  /**
   * A string lower-cases to "none" exactly when it is the word "none" in
   * some mixture of upper- and lower-case letters.
   */
  lemma NoneInAnyCase(t: string)
    ensures ToLower(t) == "none" <==>
      && |t| == 4
      && (t[0] == 'n' || t[0] == 'N') && (t[1] == 'o' || t[1] == 'O')
      && (t[2] == 'n' || t[2] == 'N') && (t[3] == 'e' || t[3] == 'E')
  {
    if |t| == 4 {
      var l := ToLower(t);
      LowerCharTo(t[0], 'n');
      LowerCharTo(t[1], 'o');
      LowerCharTo(t[2], 'n');
      LowerCharTo(t[3], 'e');
      assert l == [l[0], l[1], l[2], l[3]];
    }
  }
}
