/** Which names look something up at run time, said of the text around them. */
module Lookups {
  import opened Options
  import opened Chars
  import opened Lexer
  import opened Scanner

  /** A symbol literal whose name is relative: a backtick and the start of a name. */
  predicate RelativeAt(c: Code, pos: int) {
    HasKind(c, pos, Sym) && |c[pos].text| > 1 && IsNameStart(c[pos].text[1])
  }

  predicate BlankUpTo(t: string, lo: nat, hi: nat) { hi <= |t| && forall i :: lo <= i < hi ==> IsSpace(t[i]) }

  /** Past its quote and the white space there, the string begins with the word `d` or `l`. */
  ghost predicate SwitchingString(t: string) {
    exists k: nat :: 1 <= k < |t| && BlankUpTo(t, 1, k) && t[k] in {'d', 'l'} && (k + 1 < |t| ==> !IsNameChar(t[k + 1]))
  }

  /** The brackets opened less those closed between `lo` and `hi`. */
  function Depth(c: Code, lo: nat, hi: nat): int
    requires hi <= |c|
    decreases hi
  {
    if hi <= lo then 0
    else Depth(c, lo, hi - 1) +
         (if IsOpener(c[hi - 1].text) then 1 else if IsCloser(c[hi - 1].text) then -1 else 0)
  }

  /** The expression from `lo` on is over at `e`: a `;` or a closing bracket on its own
      level, or the statement's end. */
  predicate EndsAt(c: Code, lo: nat, e: nat) {
    e == |c| || (e < |c| && Depth(c, lo, e) == 0 && (c[e].text == ";" || IsCloser(c[e].text)))
  }

  ghost predicate RightEnd(c: Code, lo: nat, e: nat) {
    lo <= e && EndsAt(c, lo, e) && forall k :: lo <= k < e ==> !EndsAt(c, lo, k)
  }

  /** A name some token between the two positions makes absolute whatever its value. */
  ghost predicate AbsoluteBetween(c: Code, lo: nat, hi: nat) {
    || (exists i: nat :: lo <= i < hi && i < |c| && c[i].text == "hsym")
    || (exists i: nat :: lo <= i < hi && i < |c| && c[i].kind == Sym && "`:" <= c[i].text)
    || ((exists i: nat :: lo <= i < hi && i < |c| && c[i].text == "sv") &&
        (exists i: nat :: lo <= i < hi && i < |c| && c[i].kind == Sym && "`." <= c[i].text))
  }

  ghost predicate AbsoluteFrom(c: Code, lo: nat) {
    exists e: nat :: RightEnd(c, lo, e) && AbsoluteBetween(c, lo, e)
  }

  /** Where the one noun left of `pos` begins: a group begins at its bracket, or at the name it indexes. */
  function LeftStart(c: Code, m: Brackets, pos: nat): nat
    requires m.Matched? && pos <= |c|
  {
    if pos == 0 then 0
    else if c[pos - 1].text in {")", "]"} && pos - 1 in m.open && m.open[pos - 1] < pos then
      var k := m.open[pos - 1];
      if c[pos - 1].text == "]" && HasKind(c, k - 1, Name) then k - 1 else k
    else pos - 1
  }

  /** Where a name's argument stands: past an opening square bracket, if one follows. */
  function ArgumentAt(c: Code, pos: nat): nat { if TextAt(c, pos + 1) == "[" then pos + 2 else pos + 1 }

  predicate NameAt(c: Code, pos: nat, words: set<string>) { pos < |c| && c[pos].text in words }

  /** The name reads, writes or switches by a name relative to the working context. */
  ghost predicate LooksRelative(c: Code, pos: nat) {
    || (NameAt(c, pos, {"get", "value", "eval", "reval", "parse"}) && RelativeAt(c, ArgumentAt(c, pos)))
    || (NameAt(c, pos, {"value", "eval", "reval", "parse"}) && HasKind(c, ArgumentAt(c, pos), Str))
    || (NameAt(c, pos, {"set", "insert", "upsert"}) && RelativeAt(c, pos - 1))
    || (NameAt(c, pos, {"system"}) && HasKind(c, ArgumentAt(c, pos), Str)
        && SwitchingString(c[ArgumentAt(c, pos)].text))
  }

  /** The name reads or writes by a name only known at run time. */
  ghost predicate LooksComputed(c: Code, m: Brackets, pos: nat)
    requires m.Matched? && pos <= |c|
  {
    || (NameAt(c, pos, {"get"}) && !HasKind(c, ArgumentAt(c, pos), Sym) && !AbsoluteFrom(c, pos + 1))
    || (NameAt(c, pos, {"set"}) && !HasKind(c, pos - 1, Sym) && !AbsoluteBetween(c, LeftStart(c, m, pos), pos))
  }

  // ---- the scan's own operands are these

  lemma {:induction false} RightOperandIs(c: Code, lo: nat, j: nat, depth: nat, e: nat)
    requires lo <= j <= e <= |c| && RightEnd(c, lo, e) && Depth(c, lo, j) == depth
    ensures RightOperand(c, j, depth) == c[j..e]
    decreases |c| - j
  {
    hide IsOpener, IsCloser;
    if j < e {
      assert !EndsAt(c, lo, j);
      BracketText(c[j].text);
      var d := Depth(c, lo, j + 1);
      assert d >= 0 && c[j..e] == [c[j]] + c[j + 1..e];
      RightOperandIs(c, lo, j + 1, d, e);
    } else if j < |c| {
      BracketText(c[j].text);
      assert c[j..e] == [];
    }
  }

  lemma BracketText(t: string)
    ensures !(IsOpener(t) && IsCloser(t)) && !IsOpener(";") && !IsCloser(";")
  {
  }

  lemma {:induction false} HasRightEnd(c: Code, lo: nat, j: nat) returns (e: nat)
    requires lo <= j <= |c| && forall k :: lo <= k < j ==> !EndsAt(c, lo, k)
    ensures e <= |c| && RightEnd(c, lo, e)
    decreases |c| - j
  {
    hide EndsAt;
    if EndsAt(c, lo, j) {
      e := j;
    } else {
      EndIsEnd(c, lo);
      e := HasRightEnd(c, lo, j + 1);
    }
  }

  lemma EndIsEnd(c: Code, lo: nat)
    ensures EndsAt(c, lo, |c|)
  {
  }

  /** An expression has one end. */
  lemma OneRightEnd(c: Code, lo: nat, e: nat, e': nat)
    requires RightEnd(c, lo, e) && RightEnd(c, lo, e')
    ensures e == e'
  {
    hide EndsAt;
  }

  lemma AbsoluteSlice(c: Code, lo: nat, hi: nat)
    requires lo <= hi <= |c|
    ensures Absolute(c[lo..hi]) <==> AbsoluteBetween(c, lo, hi)
  {
    var s := c[lo..hi];
    assert forall i :: 0 <= i < |s| ==> s[i] == c[lo + i];
    assert forall i: nat :: lo <= i < hi ==> c[i] == s[i - lo];
  }

  lemma RightSaid(c: Code, pos: nat)
    requires pos < |c|
    ensures Absolute(RightOperand(c, pos + 1, 0)) <==> AbsoluteFrom(c, pos + 1)
  {
    hide EndsAt, Absolute, AbsoluteBetween, RightOperand;
    var e := HasRightEnd(c, pos + 1, pos + 1);
    assert Depth(c, pos + 1, pos + 1) == 0;
    RightOperandIs(c, pos + 1, pos + 1, 0, e);
    AbsoluteSlice(c, pos + 1, e);
    if AbsoluteFrom(c, pos + 1) {
      var f: nat :| RightEnd(c, pos + 1, f) && AbsoluteBetween(c, pos + 1, f);
      OneRightEnd(c, pos + 1, e, f);
    }
  }

  lemma LeftSaid(c: Code, m: Brackets, pos: nat)
    requires m.Matched? && pos < |c|
    ensures LeftStart(c, m, pos) <= pos
    ensures Absolute(LeftOperand(c, m, pos)) <==> AbsoluteBetween(c, LeftStart(c, m, pos), pos)
  {
    var k := LeftStart(c, m, pos);
    assert k <= pos;
    assert LeftOperand(c, m, pos) == c[k..pos];
    AbsoluteSlice(c, k, pos);
  }

  lemma SwitchSaid(t: string)
    ensures SwitchesByString(t) <==> SwitchingString(t)
  {
    var k := if t == "" then 0 else 1 + LeadingSpaces(t[1..]);
    if t != "" {
      assert forall i :: 1 <= i < k ==> t[i] == t[1..][i - 1];
      assert t[1..][LeadingSpaces(t[1..])..] == t[k..];
      assert BlankUpTo(t, 1, k);
    }
    if SwitchingString(t) {
      var j: nat :| 1 <= j < |t| && BlankUpTo(t, 1, j) && t[j] in {'d', 'l'} && (j + 1 < |t| ==> !IsNameChar(t[j + 1]));
      assert !IsSpace(t[j]);
      assert j == k by {
        assert k < |t| ==> t[k] == t[1..][k - 1];
        assert k <= j;
      }
    }
  }

  lemma RelativeSaid(c: Code, pos: int)
    ensures RelativeSymbol(c, pos) <==> RelativeAt(c, pos)
  {
  }

  /** LOOKUPS. The level recorded for a name says how it looks something up. */
  lemma {:induction false} LevelSaid(c: Code, m: Brackets, pos: nat)
    requires m.Matched? && pos < |c|
    ensures LookupLevel(c, m, pos) == RELATIVE <==> LooksRelative(c, pos)
    ensures LookupLevel(c, m, pos) == COMPUTED <==> LooksComputed(c, m, pos)
  {
    hide *;
    var arg := ArgumentAt(c, pos);
    RelativeSaid(c, arg);
    RelativeSaid(c, pos - 1);
    RightSaid(c, pos);
    LeftSaid(c, m, pos);
    if HasKind(c, arg, Str) {
      HasKindIs(c, arg, Str);
      SwitchSaid(c[arg].text);
    }
    LevelBy(c, m, pos);
  }

  lemma HasKindIs(c: Code, pos: int, k: Kind)
    requires HasKind(c, pos, k)
    ensures 0 <= pos < |c|
  {
  }

  lemma LevelBy(c: Code, m: Brackets, pos: nat)
    requires m.Matched? && pos < |c|
    requires RelativeSymbol(c, ArgumentAt(c, pos)) <==> RelativeAt(c, ArgumentAt(c, pos))
    requires RelativeSymbol(c, pos - 1) <==> RelativeAt(c, pos - 1)
    requires Absolute(RightOperand(c, pos + 1, 0)) <==> AbsoluteFrom(c, pos + 1)
    requires Absolute(LeftOperand(c, m, pos)) <==> AbsoluteBetween(c, LeftStart(c, m, pos), pos)
    requires HasKind(c, ArgumentAt(c, pos), Str) ==>
               (SwitchesByString(c[ArgumentAt(c, pos)].text) <==> SwitchingString(c[ArgumentAt(c, pos)].text))
    ensures LookupLevel(c, m, pos) == RELATIVE <==> LooksRelative(c, pos)
    ensures LookupLevel(c, m, pos) == COMPUTED <==> LooksComputed(c, m, pos)
  {
    hide Absolute, AbsoluteBetween, AbsoluteFrom, RightOperand, LeftOperand, SwitchesByString, SwitchingString;
    hide LeftStart, RelativeSymbol;
    RelativeIsSymbol(c, ArgumentAt(c, pos));
    RelativeIsSymbol(c, pos - 1);
    hide RelativeAt;
  }

  lemma RelativeIsSymbol(c: Code, pos: int)
    ensures RelativeAt(c, pos) ==> HasKind(c, pos, Sym) && !HasKind(c, pos, Str)
  {
  }
}
