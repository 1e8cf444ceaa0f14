/** The part of JavaScript's `String.prototype.trim` that `addTask` relies on:
    a title is rejected when nothing is left once surrounding white space is
    removed. */
module Text {

  /** The characters `trim` removes: ECMAScript WhiteSpace (tab, vertical tab,
      form feed, space, no-break space, byte order mark and the Unicode
      space separators) and LineTerminator (line feed, carriage return,
      line and paragraph separators). */
  predicate IsJsWhiteSpace(c: char)
  {
    || c == '\t' || c == '\U{000B}' || c == '\U{000C}' || c == ' '
    || c == '\U{00A0}' || c == '\U{FEFF}'
    || c == '\U{1680}' || ('\U{2000}' <= c <= '\U{200A}')
    || c == '\U{202F}' || c == '\U{205F}' || c == '\U{3000}'
    || c == '\n' || c == '\r' || c == '\U{2028}' || c == '\U{2029}'
  }

  predicate AllWhiteSpace(s: string)
  {
    forall i :: 0 <= i < |s| ==> IsJsWhiteSpace(s[i])
  }

  /** How many white-space characters open `s`. */
  function LeadingWhiteSpace(s: string): (n: nat)
    ensures n <= |s| && AllWhiteSpace(s[..n])
    ensures n < |s| ==> !IsJsWhiteSpace(s[n])
  {
    if |s| > 0 && IsJsWhiteSpace(s[0]) then
      var n := 1 + LeadingWhiteSpace(s[1..]);
      assert forall k :: 1 <= k < n ==> s[k] == s[1..][..n - 1][k - 1];
      n
    else 0
  }

  /** Where the trailing white space of `s` begins. */
  function TrailingWhiteSpaceStart(s: string): (n: nat)
    ensures n <= |s| && AllWhiteSpace(s[n..])
    ensures n > 0 ==> !IsJsWhiteSpace(s[n - 1])
  {
    if |s| > 0 && IsJsWhiteSpace(s[|s| - 1]) then
      var n := TrailingWhiteSpaceStart(s[..|s| - 1]);
      assert s[n..] == s[..|s| - 1][n..] + [s[|s| - 1]];
      n
    else |s|
  }

  /** JavaScript's `s.trim()`: leading, then trailing white space removed. */
  function Trim(s: string): (r: string)
  {
    var t := s[LeadingWhiteSpace(s)..];
    t[..TrailingWhiteSpaceStart(t)]
  }

  /** `Trim` keeps one contiguous slice of its input, drops only white space
      around it, and leaves none at either end. */
  lemma TrimIsSlice(s: string)
    ensures exists i, j :: 0 <= i <= j <= |s| && Trim(s) == s[i..j]
                           && AllWhiteSpace(s[..i]) && AllWhiteSpace(s[j..])
    ensures |Trim(s)| > 0 ==> !IsJsWhiteSpace(Trim(s)[0]) && !IsJsWhiteSpace(Trim(s)[|Trim(s)| - 1])
  {
    var i := LeadingWhiteSpace(s);
    var t := s[i..];
    var j := TrailingWhiteSpaceStart(t);
    assert Trim(s) == s[i..i + j];
    assert t[j..] == s[i + j..];
    if j > 0 {
      assert Trim(s)[0] == s[i];
      assert Trim(s)[j - 1] == t[j - 1];
    }
  }

  /** The guard `!title.trim()` of `addTask`: the trimmed title is the empty
      string exactly when every character of the title is white space. */
  lemma TrimEmptyIffBlank(s: string)
    ensures |Trim(s)| == 0 <==> AllWhiteSpace(s)
  {
    var i := LeadingWhiteSpace(s);
    var t := s[i..];
    var j := TrailingWhiteSpaceStart(t);
    if j == 0 {
      forall k | 0 <= k < |s|
        ensures IsJsWhiteSpace(s[k])
      {
        assert s[k] == s[..i][k];
      }
    } else {
      assert s[i] == t[0];
    }
  }
}
