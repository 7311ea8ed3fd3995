/** String helpers with the meaning JavaScript gives them: `trim`, the
    "blank" test `!s.trim()`, `includes` and ASCII `toUpperCase`. */
module Text {

  /** The characters `String.prototype.trim` removes: white space and line
      terminators. */
  predicate IsWhitespace(c: char) {
    || c == ' ' || c == '\t' || c == '\n' || c == '\r' || c == '\U{000B}' || c == '\U{000C}'
    || c == '\U{00A0}' || c == '\U{FEFF}' || c == '\U{1680}'
    || ('\U{2000}' <= c <= '\U{200A}')
    || c == '\U{2028}' || c == '\U{2029}' || c == '\U{202F}' || c == '\U{205F}' || c == '\U{3000}'
  }

  predicate AllWhitespace(s: string) {
    forall i :: 0 <= i < |s| ==> IsWhitespace(s[i])
  }

  /** The first index at or after `i` whose character is not white space,
      or `|s|`. */
  function SkipFrom(s: string, i: nat): (j: nat)
    requires i <= |s|
    ensures i <= j <= |s|
    ensures forall k :: i <= k < j ==> IsWhitespace(s[k])
    ensures j < |s| ==> !IsWhitespace(s[j])
    decreases |s| - i
  {
    if i < |s| && IsWhitespace(s[i]) then SkipFrom(s, i + 1) else i
  }

  /** Going back from `j` no further than `lo`: the position just after the
      last character that is not white space, or `lo`. */
  function BackFrom(s: string, lo: nat, j: nat): (e: nat)
    requires lo <= j <= |s|
    ensures lo <= e <= j
    ensures forall k :: e <= k < j ==> IsWhitespace(s[k])
    ensures e > lo ==> !IsWhitespace(s[e - 1])
    decreases j
  {
    if j > lo && IsWhitespace(s[j - 1]) then BackFrom(s, lo, j - 1) else j
  }

  /** Where the leading white space of `s` ends. */
  function TrimmedStart(s: string): (i: nat)
    ensures i <= |s|
    ensures forall k :: 0 <= k < i ==> IsWhitespace(s[k])
    ensures i < |s| ==> !IsWhitespace(s[i])
  {
    SkipFrom(s, 0)
  }

  /** `part` occurs in `s` starting at index `i`. */
  predicate SliceAt(s: string, i: int, part: string) {
    0 <= i && i + |part| <= |s| && s[i..i + |part|] == part
  }

  /** `s.trim()`: the slice of `s` starting where its leading white space
      ends; only white space lies outside it, and it neither starts nor ends
      with white space. */
  function Trim(s: string): (r: string)
    ensures SliceAt(s, TrimmedStart(s), r)
    ensures forall k :: 0 <= k < |s| && !IsWhitespace(s[k]) ==> TrimmedStart(s) <= k < TrimmedStart(s) + |r|
    ensures |r| > 0 ==> !IsWhitespace(r[0]) && !IsWhitespace(r[|r| - 1])
  {
    var i := TrimmedStart(s);
    s[i..BackFrom(s, i, |s|)]
  }

  /** JavaScript's `!s.trim()`: nothing but white space is left. */
  predicate IsBlank(s: string) {
    Trim(s) == ""
  }

  /** A string is blank exactly when every character in it is white space. */
  lemma BlankIffAllWhitespace(s: string)
    ensures IsBlank(s) <==> AllWhitespace(s)
  {
  }

  /** Trimming twice is trimming once. */
  lemma TrimIdempotent(s: string)
    ensures Trim(Trim(s)) == Trim(s)
  {
    var r := Trim(s);
    if |r| > 0 {
      assert SkipFrom(r, 0) == 0;
      assert BackFrom(r, 0, |r|) == |r|;
    }
  }

  /** A character outside the Basic Multilingual Plane: JavaScript stores it
      as a surrogate pair, two UTF-16 code units. */
  predicate Astral(c: char) {
    c as int > 0xFFFF
  }

  /** `s.length` in JavaScript: the number of UTF-16 code units, one per
      character of the Basic Multilingual Plane and two per astral one. */
  function Utf16Length(s: string): (n: nat)
    ensures |s| <= n <= 2 * |s|
  {
    if |s| == 0 then 0
    else Utf16Length(s[..|s| - 1]) + (if Astral(s[|s| - 1]) then 2 else 1)
  }

  /** Without astral characters the code-unit count is the character count;
      with only astral ones it is twice the character count. */
  lemma {:induction false} Utf16LengthPlanes(s: string)
    ensures (forall i :: 0 <= i < |s| ==> !Astral(s[i])) ==> Utf16Length(s) == |s|
    ensures (forall i :: 0 <= i < |s| ==> Astral(s[i])) ==> Utf16Length(s) == 2 * |s|
  {
    if |s| > 0 {
      var init := s[..|s| - 1];
      Utf16LengthPlanes(init);
      assert forall i :: 0 <= i < |init| ==> init[i] == s[i];
    }
  }

  /** `s.includes(part)`. */
  predicate Contains(s: string, part: string) {
    exists i | 0 <= i <= |s| - |part| :: SliceAt(s, i, part)
  }

  function UpperChar(c: char): char {
    if 'a' <= c <= 'z' then (c as int - 32) as char else c
  }

  /** `s.toUpperCase()` on ASCII text: letters `a`..`z` become capitals, the
      rest is kept. */
  function ToUpper(s: string): (r: string)
    ensures |r| == |s|
    ensures forall i :: 0 <= i < |s| ==> r[i] == UpperChar(s[i])
  {
    if |s| == 0 then "" else [UpperChar(s[0])] + ToUpper(s[1..])
  }
}
