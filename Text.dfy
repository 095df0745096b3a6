/** The string trimming that the chat box applies to its input (`String.prototype.trim`). */
module Text {

  /** The characters ECMAScript's `trim` removes: WhiteSpace (tab, vertical tab, form feed,
      zero-width no-break space and every Zs space separator) and LineTerminator. */
  const JsWhitespace: set<char> := {
    '\t', '\U{000B}', '\U{000C}', ' ', '\U{00A0}', '\U{FEFF}', '\U{1680}',
    '\U{2000}', '\U{2001}', '\U{2002}', '\U{2003}', '\U{2004}', '\U{2005}',
    '\U{2006}', '\U{2007}', '\U{2008}', '\U{2009}', '\U{200A}',
    '\U{202F}', '\U{205F}', '\U{3000}',
    '\n', '\r', '\U{2028}', '\U{2029}'
  }

  predicate IsJsWhitespace(c: char) {
    c in JsWhitespace
  }

  predicate AllWhitespace(s: string) {
    forall m | 0 <= m < |s| :: IsJsWhitespace(s[m])
  }

  /** The index of the first non-space of `s` at or after `i` (`|s|` if there is none). */
  function SkipForward(s: string, i: nat): (r: nat)
    requires i <= |s|
    ensures i <= r <= |s|
    ensures forall m | i <= m < r :: IsJsWhitespace(s[m])
    ensures r < |s| ==> !IsJsWhitespace(s[r])
    decreases |s| - i
  {
    if i < |s| && IsJsWhitespace(s[i]) then SkipForward(s, i + 1) else i
  }

  /** The end of `s[lo..j]` once its trailing whitespace is cut off. */
  function SkipBackward(s: string, lo: nat, j: nat): (r: nat)
    requires lo <= j <= |s|
    ensures lo <= r <= j
    ensures forall m | r <= m < j :: IsJsWhitespace(s[m])
    ensures r > lo ==> !IsJsWhitespace(s[r - 1])
    decreases j
  {
    if j > lo && IsJsWhitespace(s[j - 1]) then SkipBackward(s, lo, j - 1) else j
  }

  /** How much whitespace `trim` cuts from the front of `s`. */
  function Leading(s: string): nat
    ensures Leading(s) <= |s|
  {
    SkipForward(s, 0)
  }

  /** `s.trim()`: the slice of `s` left when the whitespace at both ends is cut off; it
      starts and ends with a non-space, and is empty exactly when `s` is all whitespace. */
  function Trim(s: string): (r: string)
    ensures Leading(s) + |r| <= |s| && r == s[Leading(s)..Leading(s) + |r|]
    ensures forall m | 0 <= m < Leading(s) :: IsJsWhitespace(s[m])
    ensures forall m | Leading(s) + |r| <= m < |s| :: IsJsWhitespace(s[m])
    ensures r == [] <==> AllWhitespace(s)
    ensures r != [] ==> !IsJsWhitespace(r[0]) && !IsJsWhitespace(r[|r| - 1])
  {
    var a := SkipForward(s, 0);
    var b := SkipBackward(s, a, |s|);
    assert b > a ==> s[a..b][0] == s[a] && s[a..b][b - a - 1] == s[b - 1];
    s[a..b]
  }
}
