/** `String.prototype.trim`, as applied to the note field. */
module Text {

  /** The characters ECMAScript's `trim` removes: WhiteSpace (tab, vertical
      tab, form feed, space, no-break space, byte order mark and the other
      space separators) and LineTerminator (LF, CR, LS, PS). */
  const SpaceChars: set<char> := {
    '\t', '\U{B}', '\U{C}', ' ', '\U{A0}', '\U{FEFF}', '\U{1680}', '\U{202F}', '\U{205F}', '\U{3000}',
    '\n', '\r', '\U{2028}', '\U{2029}'}

  predicate IsSpace(c: char) {
    c in SpaceChars || '\U{2000}' <= c <= '\U{200A}'
  }

  predicate AllSpace(s: string) {
    forall i :: 0 <= i < |s| ==> IsSpace(s[i])
  }

  /** Neither starts nor ends with a space character. */
  predicate IsTrimmed(s: string) {
    |s| == 0 || (!IsSpace(s[0]) && !IsSpace(s[|s| - 1]))
  }

  /** How many space characters `s` starts with. */
  function LeadingSpaces(s: string): (n: nat)
    ensures n <= |s|
    ensures forall i :: 0 <= i < n ==> IsSpace(s[i])
    ensures n == |s| || !IsSpace(s[n])
    decreases |s|
  {
    if |s| > 0 && IsSpace(s[0]) then
      var k := LeadingSpaces(s[1..]);
      assert forall i :: 1 <= i < k + 1 ==> s[i] == s[1..][i - 1];
      1 + k
    else 0
  }

  /** Where the space characters `s` ends with begin. */
  function TrailingStart(s: string): (n: nat)
    ensures n <= |s|
    ensures forall i :: n <= i < |s| ==> IsSpace(s[i])
    ensures n == 0 || !IsSpace(s[n - 1])
    decreases |s|
  {
    if |s| > 0 && IsSpace(s[|s| - 1]) then TrailingStart(s[..|s| - 1]) else |s|
  }

  /** `s.trim()`: the result is `s` with a run of spaces cut from each end,
      and has no space at either end; it is empty exactly when `s` is all
      spaces. */
  function Trim(s: string): (r: string)
    ensures exists i, j :: 0 <= i <= j <= |s| && r == s[i..j] && AllSpace(s[..i]) && AllSpace(s[j..])
    ensures IsTrimmed(r)
    ensures |r| == 0 <==> AllSpace(s)
  {
    var t := s[..TrailingStart(s)];
    var r := t[LeadingSpaces(t)..];
    assert |r| > 0 ==> r[0] == t[LeadingSpaces(t)] && r[|r| - 1] == t[|t| - 1] == s[|t| - 1];
    assert |r| == 0 ==> |t| == 0;
    assert r == s[LeadingSpaces(t)..TrailingStart(s)];
    assert AllSpace(s[..LeadingSpaces(t)]) by {
      assert s[..LeadingSpaces(t)] == t[..LeadingSpaces(t)];
    }
    assert AllSpace(s[TrailingStart(s)..]);
    r
  }

  /** Trimming leaves a string unchanged exactly when it neither starts nor
      ends with a space. */
  lemma TrimKeepsTrimmed(s: string)
    ensures Trim(s) == s <==> IsTrimmed(s)
  {
    if IsTrimmed(s) && |s| > 0 {
      var t := s[..TrailingStart(s)];
      assert TrailingStart(s) == |s| && t == s;
      assert LeadingSpaces(t) == 0;
    }
  }
}
