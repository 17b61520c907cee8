/** Renaming a statement's globals changes nothing the scanner finds but the names themselves. */
module Renaming {
  import opened Options
  import opened Chars
  import opened Lexer
  import opened QWords
  import opened Scanner

  /** A name that is neither q's own nor dotted and relative. */
  predicate Free(t: string) {
    t != "" && (IsNameStart(t[0]) || (t[0] == '.' && 2 <= |t|)) && !IsBuiltin(t) && !RelativeDotted(t)
  }

  predicate SameText(a: string, b: string) { a == b || (Free(a) && Free(b)) }

  predicate SameSig(a: Sig, b: Sig) {
    a.kind == b.kind && a.idx == b.idx && SameText(a.text, b.text) && (a.kind != Name ==> a.text == b.text)
  }

  /** `d` is `c` with some of its free names written differently. */
  ghost predicate Renamed(c: Code, d: Code) {
    |c| == |d| && forall i :: 0 <= i < |c| ==> SameSig(c[i], d[i])
  }

  /** Nothing the scanner compares a token's text with is a free name. */
  predicate SamePunctuation(a: string, b: string) {
    && (a == "(" <==> b == "(") && (a == "[" <==> b == "[") && (a == "{" <==> b == "{")
    && (a == ")" <==> b == ")") && (a == "]" <==> b == "]") && (a == "}" <==> b == "}")
    && (a == ";" <==> b == ";") && (a == ":" <==> b == ":") && (a == "::" <==> b == "::")
    && (a == "@" <==> b == "@") && (a == "." <==> b == ".") && (a == "'" <==> b == "'")
    && (a == "/" <==> b == "/") && (a == "\\" <==> b == "\\") && (a == "/:" <==> b == "/:")
    && (a == "\\:" <==> b == "\\:") && (a == "':" <==> b == "':") && (a == "" <==> b == "")
  }

  predicate SameWords(a: string, b: string) {
    && (a in QSQL_START <==> b in QSQL_START) && (a in QSQL_NEXT ==> a == b) && (b in QSQL_NEXT ==> a == b)
    && (a in ITERATORS <==> b in ITERATORS) && (a in READERS || b in READERS ==> a == b)
    && (a in WRITERS || b in WRITERS ==> a == b)
    && (a == "system" <==> b == "system") && (a == "hsym" <==> b == "hsym") && (a == "sv" <==> b == "sv")
    && (IsBuiltin(a) <==> IsBuiltin(b)) && (RelativeDotted(a) <==> RelativeDotted(b))
  }

  lemma FreeIsNoPunctuation(a: string, b: string)
    requires SameText(a, b)
    ensures SamePunctuation(a, b)
  {
    hide IsBuiltin, RelativeDotted;
  }

  lemma FreeIsNoWord(a: string, b: string)
    requires SameText(a, b)
    ensures SameWords(a, b)
  {
    hide IsPlainWord, RelativeDotted;
  }

  lemma SameBeside(c: Code, d: Code, pos: int)
    requires Renamed(c, d)
    ensures SameText(TextAt(c, pos), TextAt(d, pos)) && SamePunctuation(TextAt(c, pos), TextAt(d, pos))
    ensures forall k :: HasKind(c, pos, k) <==> HasKind(d, pos, k)
    ensures 0 <= pos < |c| ==>
              c[pos].idx == d[pos].idx && c[pos].kind == d[pos].kind &&
              (c[pos].kind != Name ==> c[pos].text == d[pos].text)
    ensures OpenerAt(c, pos) <==> OpenerAt(d, pos)
    ensures CloserAt(c, pos) <==> CloserAt(d, pos)
    ensures RelativeSymbol(c, pos) <==> RelativeSymbol(d, pos)
  {
    hide Free, SamePunctuation;
    if 0 <= pos < |c| { assert SameSig(c[pos], d[pos]); }
    FreeIsNoPunctuation(TextAt(c, pos), TextAt(d, pos));
  }

  lemma BracketSame(c: Code, d: Code, pos: nat)
    requires Renamed(c, d) && pos < |c| && (OpenerAt(c, pos) || CloserAt(c, pos))
    ensures |c| == |d| && c[pos].text == d[pos].text
  {
    SameBeside(c, d, pos);
  }

  lemma {:induction false} MatchSame(c: Code, d: Code, pos: nat, stack: seq<nat>, close: map<nat, nat>,
                                     open: map<nat, nat>)
    requires Renamed(c, d) && pos <= |c|
    requires forall i :: 0 <= i < |stack| ==> stack[i] < |c| && OpenerAt(c, stack[i])
    ensures MatchFrom(d, pos, stack, close, open) == MatchFrom(c, pos, stack, close, open)
    decreases |c| - pos
  {
    hide CloserOf, Renamed, OpenerAt, CloserAt, RelativeSymbol, HasKind;
    SameLength(c, d);
    if pos < |c| {
      SameBeside(c, d, pos);
      if OpenerAt(c, pos) {
        MatchSame(c, d, pos + 1, stack + [pos], close, open);
      } else if CloserAt(c, pos) {
        BracketSame(c, d, pos);
        if stack != [] {
          var o := stack[|stack| - 1];
          BracketSame(c, d, o);
          MatchSame(c, d, pos + 1, stack[..|stack| - 1], close[o := pos], open[pos := o]);
        }
      } else {
        MatchSame(c, d, pos + 1, stack, close, open);
      }
    }
  }

  lemma AssignsAfterSame(c: Code, d: Code, pos: nat)
    requires Renamed(c, d)
    ensures AssignsAfter(c, pos) <==> AssignsAfter(d, pos)
  {
    hide IsAssignOp, Renamed, SameText;
    SameBeside(c, d, pos);
    SameBeside(c, d, pos + 1);
  }

  lemma RoleSame(c: Code, d: Code, m: Brackets, pos: nat, f: Frame)
    requires Renamed(c, d) && m.Matched?
    ensures RoleOf(c, m, pos, f) == RoleOf(d, m, pos, f)
  {
    hide Renamed, SameText, AssignsAfter;
    SameBeside(c, d, pos + 1);
    AssignsAfterSame(c, d, pos + 1);
    if pos + 1 in m.close { AssignsAfterSame(c, d, m.close[pos + 1] + 1); }
  }

  lemma CalledSame(c: Code, d: Code, pos: nat)
    requires Renamed(c, d)
    ensures Called(c, pos) <==> Called(d, pos)
  {
    hide Renamed, SameText, IsBuiltin;
    SameBeside(c, d, pos - 2);
    SameBeside(c, d, pos - 1);
    SameBeside(c, d, pos + 1);
    FreeIsNoWord(TextAt(c, pos + 1), TextAt(d, pos + 1));
    assert |c| == |d| by { SameLength(c, d); }
  }

  lemma SameLength(c: Code, d: Code)
    requires Renamed(c, d)
    ensures |c| == |d|
  {
  }

  lemma SameSigAt(c: Code, d: Code, j: nat)
    requires Renamed(c, d) && j < |c|
    ensures |c| == |d| && SameSig(c[j], d[j])
    ensures IsOpener(c[j].text) <==> IsOpener(d[j].text)
    ensures IsCloser(c[j].text) <==> IsCloser(d[j].text)
    ensures (c[j].text == ";" <==> d[j].text == ";") && (c[j].text == ")" <==> d[j].text == ")")
    ensures (c[j].text == "]" <==> d[j].text == "]")
  {
    FreeIsNoPunctuation(c[j].text, d[j].text);
  }

  lemma RenamedOne(c: Code, d: Code, j: nat)
    requires Renamed(c, d) && j < |c|
    ensures |c| == |d| && Renamed([c[j]], [d[j]])
  {
    hide SameSig;
  }

  lemma RenamedConcat(a: Code, b: Code, x: Code, y: Code)
    requires Renamed(a, b) && Renamed(x, y)
    ensures Renamed(a + x, b + y)
  {
    hide SameSig;
  }

  lemma RenamedSlice(c: Code, d: Code, lo: nat, hi: nat)
    requires Renamed(c, d) && lo <= hi <= |c|
    ensures Renamed(c[lo..hi], d[lo..hi])
  {
    hide SameSig;
  }

  lemma {:induction false} RightOperandSame(c: Code, d: Code, j: nat, depth: nat)
    requires Renamed(c, d)
    ensures Renamed(RightOperand(c, j, depth), RightOperand(d, j, depth))
    decreases |c| - j
  {
    hide SameSig, Renamed, IsOpener, IsCloser;
    SameLength(c, d);
    NothingRenamed();
    if j < |c| {
      SameSigAt(c, d, j);
      RenamedOne(c, d, j);
      var t := c[j].text;
      if IsOpener(t) {
        RightOperandSame(c, d, j + 1, depth + 1);
        RenamedConcat([c[j]], [d[j]], RightOperand(c, j + 1, depth + 1), RightOperand(d, j + 1, depth + 1));
      } else if IsCloser(t) {
        if depth > 0 {
          RightOperandSame(c, d, j + 1, depth - 1);
          RenamedConcat([c[j]], [d[j]], RightOperand(c, j + 1, depth - 1), RightOperand(d, j + 1, depth - 1));
        }
      } else if t != ";" || depth != 0 {
        RightOperandSame(c, d, j + 1, depth);
        RenamedConcat([c[j]], [d[j]], RightOperand(c, j + 1, depth), RightOperand(d, j + 1, depth));
      }
    }
  }

  lemma NothingRenamed()
    ensures Renamed([], [])
  {
  }

  lemma LeftGroupSame(c: Code, d: Code, k: int, j: nat)
    requires Renamed(c, d) && 0 <= k <= j < |c| && |c| == |d|
    ensures Renamed(LeftGroup(c, k, j), LeftGroup(d, k, j))
  {
    RenamedSlice(c, d, k, j + 1);
    SameSigAt(c, d, j);
    NothingRenamed();
    var name := c[j].text == "]" && HasKind(c, k - 1, Name);
    if 0 < k { SameSigAt(c, d, k - 1); }
    if name {
      assert Renamed([c[k - 1]], [d[k - 1]]);
      RenamedConcat([c[k - 1]], [d[k - 1]], c[k..j + 1], d[k..j + 1]);
    } else {
      RenamedConcat([], [], c[k..j + 1], d[k..j + 1]);
    }
  }

  lemma LeftOperandSame(c: Code, d: Code, m: Brackets, pos: nat)
    requires Renamed(c, d) && m.Matched?
    ensures Renamed(LeftOperand(c, m, pos), LeftOperand(d, m, pos))
  {
    hide SameSig, Renamed, LeftGroup, IsOpener, IsCloser;
    SameLength(c, d);
    NothingRenamed();
    var j := pos - 1;
    if 0 <= j < |c| {
      SameSigAt(c, d, j);
      RenamedOne(c, d, j);
      if j in m.open && m.open[j] <= j { LeftGroupSame(c, d, m.open[j], j); }
    }
  }

  lemma AbsoluteSame(c: Code, d: Code)
    requires Renamed(c, d)
    ensures Absolute(c) <==> Absolute(d)
  {
    forall i | 0 <= i < |c|
      ensures (c[i].text == "hsym" <==> d[i].text == "hsym") && (c[i].text == "sv" <==> d[i].text == "sv")
      ensures c[i].kind == d[i].kind && (c[i].kind == Sym ==> c[i].text == d[i].text)
    {
      assert SameSig(c[i], d[i]);
      FreeIsNoWord(c[i].text, d[i].text);
    }
  }

  lemma ReadLevelSame(c: Code, d: Code, pos: nat, arg: nat, name: string)
    requires Renamed(c, d)
    ensures ReadLevel(c, pos, arg, name) == ReadLevel(d, pos, arg, name)
  {
    hide Absolute, RightOperand, Renamed;
    SameBeside(c, d, arg);
    RightOperandSame(c, d, pos + 1, 0);
    AbsoluteSame(RightOperand(c, pos + 1, 0), RightOperand(d, pos + 1, 0));
  }

  lemma WriteLevelSame(c: Code, d: Code, m: Brackets, pos: nat, name: string)
    requires Renamed(c, d) && m.Matched?
    ensures WriteLevel(c, m, pos, name) == WriteLevel(d, m, pos, name)
  {
    hide Absolute, LeftOperand, Renamed;
    SameBeside(c, d, pos - 1);
    LeftOperandSame(c, d, m, pos);
    AbsoluteSame(LeftOperand(c, m, pos), LeftOperand(d, m, pos));
  }

  lemma LookupSame(c: Code, d: Code, m: Brackets, pos: nat)
    requires Renamed(c, d) && m.Matched? && pos < |c|
    ensures |c| == |d| && LookupLevel(c, m, pos) == LookupLevel(d, m, pos)
  {
    hide Renamed, ReadLevel, WriteLevel, IsBuiltin, SwitchesByString;
    SameLength(c, d);
    SameBeside(c, d, pos);
    SameBeside(c, d, pos + 1);
    var arg := if TextAt(c, pos + 1) == "[" then pos + 2 else pos + 1;
    SameBeside(c, d, arg);
    var a, b := c[pos].text, d[pos].text;
    FreeIsNoWord(a, b);
    ReadLevelSame(c, d, pos, arg, a);
    WriteLevelSame(c, d, m, pos, a);
  }

  // ---- the walk

  /** A plain assignment in a lambda: it makes its name a local. */
  predicate MakesLocal(role: Role, lam: Option<nat>) { role == Assign && lam.Some? }

  lemma RecordSame(c: Code, d: Code, m: Brackets, pos: nat, st: Scan)
    requires Renamed(c, d) && m.Matched? && pos < |c| == |d| && st.stack != []
    requires c[pos].text != d[pos].text ==> !MakesLocal(RoleOf(c, m, pos, TopOf(st)), TopOf(st).lam)
    ensures RecordName(c, m, pos, st) == RecordName(d, m, pos, st)
  {
    assert SameSig(c[pos], d[pos]);
    FreeIsNoWord(c[pos].text, d[pos].text);
    hide Renamed, SameText, RoleOf, LookupLevel, Called, InColumnPhrase, IsBuiltin, RelativeDotted, IsRelative;
    LookupSame(c, d, m, pos);
    RoleSame(c, d, m, pos, TopOf(st));
    CalledSame(c, d, pos);
  }

  lemma NameStepSame(c: Code, d: Code, m: Brackets, pos: nat, st: Scan)
    requires Renamed(c, d) && m.Matched? && pos < |c| == |d| && st.stack != []
    requires c[pos].text != d[pos].text ==> !MakesLocal(RoleOf(c, m, pos, TopOf(st)), TopOf(st).lam)
    ensures NameStep(c, m, pos, st) == NameStep(d, m, pos, st)
  {
    RecordSame(c, d, m, pos, st);
    assert SameSig(c[pos], d[pos]);
    hide RecordName, IsBuiltin, RelativeDotted, IsRelative, WithTop;
    var a, b := c[pos].text, d[pos].text;
    FreeIsNoWord(a, b);
    assert NextPhrase(TopOf(st).qsql, a) == NextPhrase(TopOf(st).qsql, b) by {
      assert NextPhrase(TopOf(st).qsql, a) != NoPhrase ==> a in QSQL_NEXT;
      assert NextPhrase(TopOf(st).qsql, b) != NoPhrase ==> b in QSQL_NEXT;
    }
  }

  lemma ParamsSame(c: Code, d: Code, lo: nat, hi: nat)
    requires Renamed(c, d) && hi < |c| == |d| && forall p :: lo <= p <= hi ==> c[p].text == d[p].text
    ensures ParamNames(c, lo, hi) == ParamNames(d, lo, hi)
  {
    assert forall p :: lo <= p <= hi ==> SameSig(c[p], d[p]);
    hide SameText;
  }

  lemma HasParamsSame(c: Code, d: Code, m: Brackets, pos: nat)
    requires Renamed(c, d) && m.Matched? && pos < |c| == |d|
    ensures HasParams(c, m, pos) <==> HasParams(d, m, pos)
  {
    SameBeside(c, d, pos);
    SameBeside(c, d, pos + 1);
    hide Renamed, SameText;
  }

  lemma OpenerPaired(c: Code, m: Brackets, pos: nat)
    requires Pairs(c, m) && OpenerAt(c, pos)
    ensures m.Matched? && pos in m.close && pos < m.close[pos] < |c|
    ensures pos + 1 in m.close ==> pos + 1 < m.close[pos + 1] < |c|
  {
    hide OpenerAt, CloserAt, CloserOf;
  }

  lemma LambdaSame(c: Code, d: Code, m: Brackets, pos: nat, parent: Option<nat>)
    requires Renamed(c, d) && Pairs(c, m) && Pairs(d, m) && |c| == |d| && OpenerAt(c, pos) && OpenerAt(d, pos)
    requires HasParams(c, m, pos) ==> forall p :: pos < p <= m.close[pos + 1] ==> c[p].text == d[p].text
    ensures LambdaAt(c, m, pos, parent) == LambdaAt(d, m, pos, parent)
  {
    hide Renamed, Called, ParamNames, OpenerAt, Pairs;
    OpenerPaired(c, m, pos);
    HasParamsSame(c, d, m, pos);
    CalledSame(c, d, m.close[pos]);
    if HasParams(c, m, pos) { ParamsSame(c, d, pos + 1, m.close[pos + 1]); }
  }

  lemma OpenLambdaSame(c: Code, d: Code, m: Brackets, pos: nat, st: Scan)
    requires Renamed(c, d) && Pairs(c, m) && Pairs(d, m) && |c| == |d| && st.stack != []
    requires OpenerAt(c, pos) && OpenerAt(d, pos)
    requires forall p :: pos < p <= OpenLambda(c, m, pos, st).1 ==> c[p].text == d[p].text
    ensures OpenLambda(c, m, pos, st) == OpenLambda(d, m, pos, st)
  {
    HasParamsSame(c, d, m, pos);
    LambdaSame(c, d, m, pos, TopOf(st).lam);
    hide LambdaAt, Renamed, HasParams, OpenerAt;
  }

  lemma OtherOpSame(c: Code, d: Code, m: Brackets, pos: nat, st: Scan)
    requires Pairs(c, m) && Pairs(d, m) && pos < |c| == |d| && st.stack != [] && c[pos].kind == Op && d[pos].kind == Op
    requires c[pos].text == d[pos].text != "{" && c[pos].idx == d[pos].idx
    requires TextAt(c, pos - 1) == "(" <==> TextAt(d, pos - 1) == "("
    requires TextAt(c, pos + 1) == "[" <==> TextAt(d, pos + 1) == "["
    requires RelativeSymbol(c, pos + 2) <==> RelativeSymbol(d, pos + 2)
    ensures OpStep(c, m, pos, st) == OpStep(d, m, pos, st)
  {
    hide Pairs, OpenLambda, TextAt, RelativeSymbol;
  }

  lemma OpStepSame(c: Code, d: Code, m: Brackets, pos: nat, st: Scan)
    requires Renamed(c, d) && Pairs(c, m) && Pairs(d, m) && pos < |c| == |d| && st.stack != []
    requires c[pos].kind == Op && d[pos].kind == Op
    requires forall p :: pos < p <= OpStep(c, m, pos, st).1 ==> c[p].text == d[p].text
    ensures OpStep(c, m, pos, st) == OpStep(d, m, pos, st)
  {
    SameBeside(c, d, pos);
    SameBeside(c, d, pos - 1);
    SameBeside(c, d, pos + 1);
    SameBeside(c, d, pos + 2);
    assert c[pos].text == d[pos].text && c[pos].idx == d[pos].idx;
    if c[pos].text == "{" {
      hide Renamed, Pairs, SameText, OpenLambda;
      OpenLambdaSame(c, d, m, pos, st);
    } else {
      hide Renamed, Pairs, OpStep;
      OtherOpSame(c, d, m, pos, st);
    }
  }

  /** A step adds at most the use of the name it stands at. */
  lemma StepUses(c: Code, m: Brackets, pos: nat, st: Scan)
    requires Pairs(c, m) && pos < |c| && st.stack != []
    ensures var st' := WalkStep(c, m, pos, st).0;
            || st'.uses == st.uses
            || (&& st'.uses == st.uses + [st'.uses[|st.uses|]]
                && c[pos].kind == Name
                && st'.uses[|st.uses|].pos == pos && st'.uses[|st.uses|].idx == c[pos].idx
                && st'.uses[|st.uses|].role == RoleOf(c, m, pos, TopOf(st)) && st'.uses[|st.uses|].lam == TopOf(st).lam)
  {
    hide RoleOf, LookupLevel, Called, InColumnPhrase, RelativeDotted, Pairs;
  }

  lemma {:induction false} WalkUses(c: Code, m: Brackets, pos: nat, st: Scan)
    requires Pairs(c, m) && pos <= |c| && st.stack != []
    ensures var uses := Walk(c, m, pos, st).uses;
            && st.uses <= uses
            && forall i :: |st.uses| <= i < |uses| ==> pos <= uses[i].pos < |c| && uses[i].idx == c[uses[i].pos].idx
                                                       && c[uses[i].pos].kind == Name
    decreases |c| - pos
  {
    if pos < |c| {
      StepUses(c, m, pos, st);
      hide WalkStep, Pairs;
      var (st', next) := WalkStep(c, m, pos, st);
      WalkUses(c, m, next, st');
    }
  }

  /** From the `k`th use on, the uses allow the names at or after `pos` to change as `d` has them. */
  ghost predicate Allowed(c: Code, d: Code, pos: nat, uses: seq<Use>, k: nat)
    requires |c| == |d|
  {
    forall p :: pos <= p < |c| && c[p].text != d[p].text ==>
      exists i :: k <= i < |uses| && uses[i].pos == p && !MakesLocal(uses[i].role, uses[i].lam)
  }

  lemma {:induction false} WalkSame(c: Code, d: Code, m: Brackets, pos: nat, st: Scan)
    requires Renamed(c, d) && |c| == |d| && Pairs(c, m) && Pairs(d, m) && pos <= |c| && st.stack != []
    requires Allowed(c, d, pos, Walk(c, m, pos, st).uses, |st.uses|)
    ensures Walk(d, m, pos, st) == Walk(c, m, pos, st)
    decreases |c| - pos
  {
    if pos < |c| {
      var uses := Walk(c, m, pos, st).uses;
      var (st', next) := WalkStep(c, m, pos, st);
      StepUses(c, m, pos, st);
      hide Pairs;
      assert Walk(c, m, next, st').uses == uses;
      WalkUses(c, m, next, st');
      assert forall i :: |st'.uses| <= i < |uses| ==> next <= uses[i].pos;
      assert st'.uses <= uses;
      assert Allowed(c, d, next, uses, |st'.uses|);
      StepAllowed(c, d, m, pos, st);
      hide WalkStep, Allowed;
      WalkSame(c, d, m, next, st');
    }
  }

  lemma StepAllowed(c: Code, d: Code, m: Brackets, pos: nat, st: Scan)
    requires Renamed(c, d) && |c| == |d| && Pairs(c, m) && Pairs(d, m) && pos < |c| && st.stack != []
    requires Allowed(c, d, pos, Walk(c, m, pos, st).uses, |st.uses|)
    ensures WalkStep(d, m, pos, st) == WalkStep(c, m, pos, st)
  {
    hide *;
    SameKind(c, d, pos);
    StepIs(c, m, pos, st);
    StepIs(d, m, pos, st);
    if c[pos].kind == Name {
      ChangesOnlyUses(c, d, m, pos, st);
      NameStepSame(c, d, m, pos, st);
    } else if c[pos].kind == Op {
      OpAllowed(c, d, m, pos, st);
    }
  }

  lemma OpAllowed(c: Code, d: Code, m: Brackets, pos: nat, st: Scan)
    requires Renamed(c, d) && |c| == |d| && Pairs(c, m) && Pairs(d, m) && pos < |c| && st.stack != []
    requires Allowed(c, d, pos, Walk(c, m, pos, st).uses, |st.uses|) && c[pos].kind == Op
    ensures d[pos].kind == Op && OpStep(d, m, pos, st) == OpStep(c, m, pos, st)
  {
    hide *;
    SameKind(c, d, pos);
    StepIs(c, m, pos, st);
    ChangesOnlyUses(c, d, m, pos, st);
    var next := WalkStep(c, m, pos, st).1;
    forall p | pos < p <= OpStep(c, m, pos, st).1 ensures c[p].text == d[p].text { assert p < next; }
    OpStepSame(c, d, m, pos, st);
  }

  lemma SameKind(c: Code, d: Code, pos: nat)
    requires Renamed(c, d) && pos < |c| == |d|
    ensures c[pos].kind == d[pos].kind
  {
    assert SameSig(c[pos], d[pos]);
  }

  /** A round of the walk, by the token's kind. */
  lemma StepIs(c: Code, m: Brackets, pos: nat, st: Scan)
    requires Pairs(c, m) && pos < |c| && st.stack != []
    ensures m.Matched?
    ensures c[pos].kind == Name ==> WalkStep(c, m, pos, st) == (NameStep(c, m, pos, st), pos + 1)
    ensures c[pos].kind == Op ==> WalkStep(c, m, pos, st) == (OpStep(c, m, pos, st).0, OpStep(c, m, pos, st).1 + 1)
    ensures c[pos].kind != Name && c[pos].kind != Op ==>
              WalkStep(c, m, pos, st) == (WithTop(st, TopOf(st).(segStart := false)), pos + 1)
  {
    assert m.Matched?;
    hide NameStep, OpStep, Pairs;
  }

  lemma ChangesOnlyUses(c: Code, d: Code, m: Brackets, pos: nat, st: Scan)
    requires |c| == |d| && Pairs(c, m) && pos < |c| && st.stack != []
    requires Allowed(c, d, pos, Walk(c, m, pos, st).uses, |st.uses|)
    ensures c[pos].text != d[pos].text ==> !MakesLocal(RoleOf(c, m, pos, TopOf(st)), TopOf(st).lam)
    ensures forall p :: pos < p < WalkStep(c, m, pos, st).1 ==> c[p].text == d[p].text
  {
    var uses := Walk(c, m, pos, st).uses;
    var (st', next) := WalkStep(c, m, pos, st);
    StepUses(c, m, pos, st);
    WalkUses(c, m, next, st');
    assert Walk(c, m, next, st').uses == uses;
    hide WalkStep, Walk, Pairs, RoleOf;
    assert st'.uses <= uses;
    if c[pos].text != d[pos].text {
      var i :| |st.uses| <= i < |uses| && uses[i].pos == pos && !MakesLocal(uses[i].role, uses[i].lam);
      assert i == |st.uses| && uses[i] == st'.uses[i];
    }
  }

  lemma DefinitionSame(c: Code, d: Code, m: Brackets)
    requires Renamed(c, d) && m.Matched?
    ensures DefinitionOf(c, m).Some? <==> DefinitionOf(d, m).Some?
    ensures DefinitionOf(c, m).Some? ==>
              |c| == |d| > 0 && DefinitionOf(c, m).value == c[0].text && DefinitionOf(d, m).value == d[0].text
  {
    SameLength(c, d);
    SameBeside(c, d, 0);
    SameBeside(c, d, 1);
    SameBeside(c, d, 2);
    SameBeside(c, d, |c| - 1);
    hide Renamed, SameText;
  }

  /** The statements `c` and `d` mean the same but for their names. */
  ghost predicate SameParse(s: Statement, t: Statement) {
    || (s == Refused && t == Refused)
    || (s.Parsed? && t.Parsed? && s.uses == t.uses && s.lookups == t.lookups && s.lams == t.lams
        && s.definition.Some? == t.definition.Some?)
  }

  /** Renaming used globals, none of them made local, leaves the statement's uses, lookups and lambdas as they were. */
  lemma {:induction false} ParseSame(c: Code, d: Code)
    requires Renamed(c, d) && |c| == |d| && ParseCode(c).Parsed?
    requires Allowed(c, d, 0, ParseCode(c).uses, 0)
    ensures SameParse(ParseCode(c), ParseCode(d))
  {
    hide Walk, Allowed, Renamed, DefinitionOf, Pairs;
    MatchSame(c, d, 0, [], map[], map[]);
    assert MatchAll(d) == MatchAll(c);
    WalkSame(c, d, MatchAll(c), 0, START);
    DefinitionSame(c, d, MatchAll(c));
  }
}
