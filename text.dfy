/**
  JavaScript's String.prototype.trim, as the page uses it to validate titles
  and to normalise categories.
 */
module Text {

  /** The code points trim removes: ECMAScript WhiteSpace (tab, vertical tab,
      form feed, zero-width no-break space and every Unicode "Zs" space) and
      LineTerminator (line feed, carriage return, line and paragraph
      separators), sections 12.2 and 12.3 of ECMA-262. */
  predicate IsWhitespace(c: char) {
    || c == '\t' || c == '\n' || c == '\U{000B}' || c == '\U{000C}' || c == '\r'
    || c == ' ' || c == '\U{00A0}' || c == '\U{1680}'
    || ('\U{2000}' <= c <= '\U{200A}')
    || c == '\U{2028}' || c == '\U{2029}' || c == '\U{202F}' || c == '\U{205F}'
    || c == '\U{3000}' || c == '\U{FEFF}'
  }

  predicate AllWhitespace(s: string) {
    forall k :: 0 <= k < |s| ==> IsWhitespace(s[k])
  }

  /** The first position at or after `i` that does not hold whitespace, or
      `|s|` when there is none. */
  function SkipForward(s: string, i: nat): (j: nat)
    requires i <= |s|
    ensures i <= j <= |s|
    ensures forall k :: i <= k < j ==> IsWhitespace(s[k])
    ensures j < |s| ==> !IsWhitespace(s[j])
    decreases |s| - i
  {
    if i < |s| && IsWhitespace(s[i]) then SkipForward(s, i + 1) else i
  }

  /** The end of the last non-whitespace character before `j` and not
      before `lo`, or `lo` when there is none. */
  function SkipBackward(s: string, lo: nat, j: nat): (e: nat)
    requires lo <= j <= |s|
    ensures lo <= e <= j
    ensures forall k :: e <= k < j ==> IsWhitespace(s[k])
    ensures lo < e ==> !IsWhitespace(s[e - 1])
  {
    if lo < j && IsWhitespace(s[j - 1]) then SkipBackward(s, lo, j - 1) else j
  }

  /** The length of the leading whitespace run of `s`. */
  function Leading(s: string): (n: nat)
    ensures n <= |s|
  {
    SkipForward(s, 0)
  }

  /** Where the trailing whitespace run of `s` begins. */
  function TrimmedEnd(s: string): (e: nat)
    ensures Leading(s) <= e <= |s|
  {
    SkipBackward(s, Leading(s), |s|)
  }

  /** `s.trim()`: the part of `s` from its first to its last non-whitespace
      character (TrimString, section 22.1.3.32.1 of ECMA-262). It is empty
      exactly when `s` is all whitespace; otherwise it starts and ends with
      a non-whitespace character. */
  function Trim(s: string): (r: string)
    ensures r == [] <==> AllWhitespace(s)
    ensures r != [] ==> !IsWhitespace(r[0]) && !IsWhitespace(r[|r| - 1])
  {
    s[Leading(s)..TrimmedEnd(s)]
  }

  /** `Trim(s)` is the part of `s` between a leading and a trailing run of
      whitespace. */
  lemma TrimIsSlice(s: string)
    ensures Trim(s) == s[Leading(s)..TrimmedEnd(s)]
    ensures AllWhitespace(s[..Leading(s)]) && AllWhitespace(s[TrimmedEnd(s)..])
  {
    var a, e := Leading(s), TrimmedEnd(s);
    assert forall k :: 0 <= k < a ==> s[..a][k] == s[k];
    assert forall k :: 0 <= k < |s| - e ==> s[e..][k] == s[e + k];
  }

  /** A string that neither starts nor ends with whitespace trims to itself. */
  lemma TrimFixesTrimmed(s: string)
    requires s == [] || (!IsWhitespace(s[0]) && !IsWhitespace(s[|s| - 1]))
    ensures Trim(s) == s
  {
    if s != [] {
      assert Leading(s) == 0;
      assert TrimmedEnd(s) == |s|;
    }
  }

  /** Trimming an already trimmed string changes nothing. */
  lemma TrimIdempotent(s: string)
    ensures Trim(Trim(s)) == Trim(s)
  {
    TrimFixesTrimmed(Trim(s));
  }
}
