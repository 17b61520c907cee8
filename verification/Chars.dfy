/** Character classes and the few string operations the q converter takes from Python. */
module Chars {

  // Python's Unicode tables beyond ASCII are fixed but arbitrary here, so every
  // result holds whatever they contain.
  const UNICODE_DIGITS: set<char>
  const UNICODE_LETTERS: set<char>
  const UNICODE_SPACES: set<char>

  predicate IsAscii(c: char) { c as int < 128 }

  predicate IsDigit(c: char) {
    '0' <= c <= '9' || (!IsAscii(c) && c in UNICODE_DIGITS)
  }

  predicate IsAsciiLetter(c: char) { 'a' <= c <= 'z' || 'A' <= c <= 'Z' }

  predicate IsAlnum(c: char) {
    IsAsciiLetter(c) || IsDigit(c) || (!IsAscii(c) && c in UNICODE_LETTERS)
  }

  predicate IsSpace(c: char) {
    c in {' ', '\t', '\n', '\r', '\U{0b}', '\U{0c}', '\U{1c}', '\U{1d}', '\U{1e}', '\U{1f}'}
    || (!IsAscii(c) && c in UNICODE_SPACES)
  }

  predicate AllSpaces(s: string) { forall i :: 0 <= i < |s| ==> IsSpace(s[i]) }

  predicate IsNameStart(c: char) { IsAsciiLetter(c) }

  predicate IsNameChar(c: char) { IsAsciiLetter(c) || '0' <= c <= '9' || c == '_' }

  predicate IsBlank(c: char) { c == ' ' || c == '\t' }

  /** The first newline at or after `j`, else the end. */
  function Eol(s: string, j: nat): (k: nat)
    requires j <= |s|
    ensures j <= k <= |s|
    ensures k < |s| ==> s[k] == '\n'
    ensures forall i :: j <= i < k ==> s[i] != '\n'
    decreases |s| - j
  {
    if j < |s| && s[j] != '\n' then Eol(s, j + 1) else j
  }

  function RStrip(s: string, cut: set<char>): (r: string)
    ensures r <= s
    ensures r != "" ==> r[|r| - 1] !in cut
    ensures forall i :: |r| <= i < |s| ==> s[i] in cut
  {
    if s != "" && s[|s| - 1] in cut then RStrip(s[..|s| - 1], cut) else s
  }

  /** How many of `s`'s first characters are white space. */
  function LeadingSpaces(s: string): (n: nat)
    ensures n <= |s|
    ensures forall i :: 0 <= i < n ==> IsSpace(s[i])
    ensures n < |s| ==> !IsSpace(s[n])
  {
    if s != "" && IsSpace(s[0]) then 1 + LeadingSpaces(s[1..]) else 0
  }

  function TrailingSpaces(s: string): (n: nat)
    ensures n <= |s|
    ensures forall i :: |s| - n <= i < |s| ==> IsSpace(s[i])
    ensures n < |s| ==> !IsSpace(s[|s| - n - 1])
  {
    if s != "" && IsSpace(s[|s| - 1]) then 1 + TrailingSpaces(s[..|s| - 1]) else 0
  }

  /** `str.strip()`. */
  function Strip(s: string): string {
    var t := s[LeadingSpaces(s)..];
    t[..|t| - TrailingSpaces(t)]
  }

  /** The length of `s`'s first word: up to the first white space. */
  function WordEnd(s: string): (n: nat)
    ensures n <= |s|
    ensures forall i :: 0 <= i < n ==> !IsSpace(s[i])
    ensures n < |s| ==> IsSpace(s[n])
  {
    if s != "" && !IsSpace(s[0]) then 1 + WordEnd(s[1..]) else 0
  }

  function CountOf(s: string, c: char): nat {
    if s == "" then 0 else (if s[0] == c then 1 else 0) + CountOf(s[1..], c)
  }

  /** Where the last `c` is, or -1. */
  function LastOf(s: string, c: char): (k: int)
    ensures -1 <= k < |s|
    ensures k >= 0 ==> s[k] == c
    ensures forall i :: k < i < |s| ==> s[i] != c
  {
    if s == "" then -1 else if s[|s| - 1] == c then |s| - 1 else LastOf(s[..|s| - 1], c)
  }

  lemma {:induction false} CountOfConcat(a: string, b: string, c: char)
    ensures CountOf(a + b, c) == CountOf(a, c) + CountOf(b, c)
  {
    if a == "" {
      assert a + b == b;
    } else {
      assert (a + b)[1..] == a[1..] + b;
      CountOfConcat(a[1..], b, c);
    }
  }

  lemma {:induction false} NoneCounted(s: string, c: char)
    ensures CountOf(s, c) == 0 <==> c !in s
  {
    if s != "" { NoneCounted(s[1..], c); }
  }

  // ---- text with white space around it

  /** No white space at either end. */
  ghost predicate Trimmed(s: string) { s != "" && !IsSpace(s[0]) && !IsSpace(s[|s| - 1]) }

  lemma StripParts(s: string) returns (lead: string, tail: string)
    ensures AllSpaces(lead) && AllSpaces(tail) && s == lead + Strip(s) + tail
    ensures Strip(s) != "" ==> Trimmed(Strip(s))
  {
    hide LeadingSpaces, TrailingSpaces, IsSpace;
    var n := LeadingSpaces(s);
    var t := s[n..];
    var k := TrailingSpaces(t);
    lead, tail := s[..n], t[|t| - k..];
    assert Strip(s) == t[..|t| - k];
    assert s == s[..n] + t && t == t[..|t| - k] + t[|t| - k..];
    assert AllSpaces(lead) && AllSpaces(tail);
    if Strip(s) != "" {
      assert t[0] == s[n] && t[..|t| - k][0] == t[0] && t[..|t| - k][|t| - k - 1] == t[|t| - k - 1];
    }
  }

  lemma StripIs(s: string, word: string, lead: string, tail: string)
    requires AllSpaces(lead) && AllSpaces(tail) && Trimmed(word) && s == lead + word + tail
    ensures Strip(s) == word
  {
    var n := LeadingSpaces(s);
    assert s[|lead|] == word[0];
    assert forall i :: 0 <= i < |lead| ==> s[i] == lead[i];
    assert n == |lead|;
    var t := s[n..];
    assert t == word + tail;
    var k := TrailingSpaces(t);
    assert t[|word| - 1] == word[|word| - 1];
    assert forall i :: |word| <= i < |t| ==> t[i] == tail[i - |word|];
    assert k == |tail|;
    assert t[..|t| - k] == word;
  }
}
