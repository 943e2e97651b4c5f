/** JavaScript's String.prototype.trim, as the add handler uses it to reject
    blank task text. */
module Text {

  /** The code points that ECMAScript's trim removes: the WhiteSpace
      production (TAB, VT, FF, SP, NBSP, ZWNBSP and the Unicode "Zs"
      space separators) and the LineTerminator production (LF, CR, LS, PS). */
  predicate IsWhitespace(c: char)
  {
    || c == '\t' || c == '\U{B}' || c == '\U{C}' || c == ' '
    || c == '\U{A0}' || c == '\U{FEFF}'
    || c == '\U{1680}' || ('\U{2000}' <= c <= '\U{200A}')
    || c == '\U{202F}' || c == '\U{205F}' || c == '\U{3000}'
    || c == '\n' || c == '\r' || c == '\U{2028}' || c == '\U{2029}'
  }

  /** Every character of s is whitespace (so the empty string is blank). */
  predicate IsBlank(s: string)
  {
    forall i :: 0 <= i < |s| ==> IsWhitespace(s[i])
  }

  /** s with its leading whitespace removed. */
  function TrimStart(s: string): (r: string)
    ensures |r| <= |s| && r == s[|s| - |r|..]
    ensures r != [] ==> !IsWhitespace(r[0])
    ensures forall i :: 0 <= i < |s| - |r| ==> IsWhitespace(s[i])
  {
    if s != [] && IsWhitespace(s[0]) then TrimStart(s[1..]) else s
  }

  /** s with its trailing whitespace removed. */
  function TrimEnd(s: string): (r: string)
    ensures |r| <= |s| && r == s[..|r|]
    ensures r != [] ==> !IsWhitespace(r[|r| - 1])
    ensures forall i :: |r| <= i < |s| ==> IsWhitespace(s[i])
  {
    if s != [] && IsWhitespace(s[|s| - 1]) then TrimEnd(s[..|s| - 1]) else s
  }

  /** s without leading and trailing whitespace; the inner part is kept as is. */
  function Trim(s: string): (r: string)
    ensures r != [] ==> !IsWhitespace(r[0]) && !IsWhitespace(r[|r| - 1])
    ensures |s| - |TrimStart(s)| + |r| <= |s|
    ensures r == s[|s| - |TrimStart(s)|..|s| - |TrimStart(s)| + |r|]
    ensures forall i :: 0 <= i < |s| - |TrimStart(s)| ==> IsWhitespace(s[i])
    ensures forall i :: |s| - |TrimStart(s)| + |r| <= i < |s| ==> IsWhitespace(s[i])
  {
    var t := TrimStart(s);
    var r := TrimEnd(t);
    assert r == s[|s| - |t|..|s| - |t| + |r|];
    r
  }

  /** TrimEnd only shortens a string to empty when every character is whitespace. */
  lemma {:induction false} TrimEndEmpty(s: string)
    ensures TrimEnd(s) == [] <==> IsBlank(s)
  {
    if s != [] && IsWhitespace(s[|s| - 1]) {
      TrimEndEmpty(s[..|s| - 1]);
      if IsBlank(s[..|s| - 1]) {
        forall i | 0 <= i < |s| ensures IsWhitespace(s[i]) {
          if i < |s| - 1 { assert s[i] == s[..|s| - 1][i]; }
        }
      } else {
        var i :| 0 <= i < |s| - 1 && !IsWhitespace(s[..|s| - 1][i]);
        assert s[i] == s[..|s| - 1][i];
      }
    }
  }

  /** A string trims to the empty string exactly when it is blank: this is
      the test `newTodoText.trim()` performs through JavaScript truthiness. */
  lemma {:induction false} TrimEmptyIffBlank(s: string)
    ensures Trim(s) == [] <==> IsBlank(s)
  {
    var t := TrimStart(s);
    TrimEndEmpty(t);
    if !IsBlank(t) {
      assert t != [] && t[0] == s[|s| - |t|];
    }
  }
}
