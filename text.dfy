/**
 * `String.prototype.trim`, which `addTask` uses to reject a blank input.
 * Characters are Unicode scalar values; every character JavaScript strips
 * lies in the Basic Multilingual Plane, so a UTF-16 code unit and a scalar
 * value agree on all of them.
 */
module Text {

  /** ECMAScript WhiteSpace and LineTerminator: the characters `trim` removes. */
  predicate IsWhitespace(c: char) {
    c == '\t' || c == '\U{000B}' || c == '\U{000C}' || c == ' ' || c == '\U{00A0}' || c == '\U{FEFF}'
    || c == '\n' || c == '\r' || c == '\U{2028}' || c == '\U{2029}'
    || c == '\U{1680}' || ('\U{2000}' <= c <= '\U{200A}') || c == '\U{202F}' || c == '\U{205F}' || c == '\U{3000}'
  }

  /** Every character of `s` is whitespace (in particular, `s` may be empty). */
  predicate IsBlank(s: string) {
    forall i :: 0 <= i < |s| ==> IsWhitespace(s[i])
  }

  /** Drops the leading whitespace: the result is a suffix that starts with a non-whitespace character, if any. */
  function TrimStart(s: string): (r: string)
    ensures |r| <= |s| && r == s[|s| - |r|..]
    ensures forall i :: 0 <= i < |s| - |r| ==> IsWhitespace(s[i])
    ensures r == [] || !IsWhitespace(r[0])
  {
    if s == [] || !IsWhitespace(s[0]) then s else TrimStart(s[1..])
  }

  /** Drops the trailing whitespace: the result is a prefix that ends with a non-whitespace character, if any. */
  function TrimEnd(s: string): (r: string)
    ensures |r| <= |s| && r == s[..|r|]
    ensures forall i :: |r| <= i < |s| ==> IsWhitespace(s[i])
    ensures r == [] || !IsWhitespace(r[|r| - 1])
  {
    if s == [] || !IsWhitespace(s[|s| - 1]) then s else TrimEnd(s[..|s| - 1])
  }

  /**
   * `s.trim()`: the slice of `s` left after dropping whitespace at both ends.
   * It is empty exactly when `s` is blank, and otherwise neither starts nor
   * ends with whitespace.
   */
  function Trim(s: string): (r: string)
    ensures r == [] <==> IsBlank(s)
    ensures r != [] ==> !IsWhitespace(r[0]) && !IsWhitespace(r[|r| - 1])
    ensures var k := |s| - |TrimStart(s)|;
      OccursAt(r, s, k)
      && (forall i :: 0 <= i < k ==> IsWhitespace(s[i]))
      && (forall i :: k + |r| <= i < |s| ==> IsWhitespace(s[i]))
  {
    TrimSlice(s);
    TrimEnd(TrimStart(s))
  }

  /** `r` is the slice of `s` that starts at index `k`. */
  predicate OccursAt(r: string, s: string, k: nat) {
    k + |r| <= |s| && r == s[k..k + |r|]
  }

  /** What `Trim` drops on each side is whitespace, and what it keeps is one slice of `s`. */
  lemma TrimSlice(s: string)
    ensures var m := TrimStart(s); var r := TrimEnd(m); var k := |s| - |m|;
      OccursAt(r, s, k)
      && (forall i :: 0 <= i < k ==> IsWhitespace(s[i]))
      && (forall i :: k + |r| <= i < |s| ==> IsWhitespace(s[i]))
  {
    var m := TrimStart(s);
    var r := TrimEnd(m);
    var k := |s| - |m|;
    assert m == s[k..];
    assert r == m[..|r|];
    forall i | k + |r| <= i < |s|
      ensures IsWhitespace(s[i])
    {
      assert s[i] == m[i - k];
    }
  }
}
