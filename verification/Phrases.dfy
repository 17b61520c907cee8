/** Which uses stand in a qSQL column phrase, said by the brackets and words around
    them: no stack of frames and no order of scanning. */
module Phrases {
  import opened Options
  import opened Lexer
  import opened QWords
  import opened Scanner
  import opened Renaming
  import opened ScannerProofs

  // ---- one bracket level, read backwards from a position on it

  predicate SemicolonAt(c: Code, pos: int) { HasKind(c, pos, Op) && c[pos].text == ";" }

  /** The phrase a word leaves its level in. */
  function PhraseAfter(q: Phrase, word: string): Phrase {
    if word in {"select", "exec", "update", "delete"} then Cols
    else match q
      case Cols => if word == "by" then By else if word == "from" then From else Cols
      case By => if word == "from" then From else By
      case From => if word == "where" then Where else From
      case _ => q
  }

  /** The phrase at `pos` of the bracket level it stands on: a bracket or a `;`
      begins with none, and a closed group leaves it as it was. */
  function PhraseAt(c: Code, m: Brackets, pos: nat): Phrase
    requires m.Matched? && pos <= |c|
    decreases pos
  {
    var last := pos - 1;
    if pos == 0 || OpenerAt(c, last) || SemicolonAt(c, last) then NoPhrase
    else if CloserAt(c, last) && last in m.open && m.open[last] < last then PhraseAt(c, m, m.open[last])
    else if c[last].kind == Name then PhraseAfter(PhraseAt(c, m, last), c[last].text)
    else PhraseAt(c, m, last)
  }

  predicate OfColumns(q: Phrase) { q == Cols || q == By || q == Where }

  /** The innermost bracket open at `pos`. */
  function InnermostOpen(c: Code, pos: nat): Option<nat>
    requires pos <= |c|
  {
    var opens := OpensAt(c, pos);
    if opens == [] then None else Some(opens[|opens| - 1])
  }

  /** Directly inside a table literal's parenthesis, `([...` */
  predicate InTable(c: Code, pos: nat)
    requires pos <= |c|
  {
    var o := InnermostOpen(c, pos);
    o.Some? && TextAt(c, o.value) == "(" && TextAt(c, o.value + 1) == "["
  }

  /** `p` opens a table literal's key columns. */
  predicate KeysOpen(c: Code, p: nat)
    requires p < |c|
  {
    OpenerAt(c, p) && c[p].text == "[" && InTable(c, p) && TextAt(c, p - 1) == "("
  }

  function KindAt(c: Code, pos: nat): FrameKind
    requires pos <= |c|
  {
    var o := InnermostOpen(c, pos);
    if o.None? || o.value >= |c| then Top
    else if c[o.value].text == "{" then InLambda
    else if c[o.value].text == "(" then (if TextAt(c, o.value + 1) == "[" then Table else Paren)
    else if KeysOpen(c, o.value) then TableKey
    else Bracket
  }

  /** A column's name may stand at `pos`: the level has begun a new item there. */
  predicate ItemStarts(c: Code, m: Brackets, pos: nat)
    requires m.Matched? && pos <= |c|
    decreases pos
  {
    var last := pos - 1;
    if pos == 0 || SemicolonAt(c, last) then true
    else if OpenerAt(c, last) then KeysOpen(c, last)
    else if CloserAt(c, last) && last in m.open && m.open[last] < last then
      KeysOpen(c, m.open[last]) || ItemStarts(c, m, m.open[last])
    else if c[last].kind == Name then
      PhraseAt(c, m, pos) != From && (c[last].text in QSQL_START || PhraseAt(c, m, pos) != PhraseAt(c, m, last))
    else HasKind(c, last, Op) && c[last].text == "," && OfColumns(PhraseAt(c, m, pos))
  }

  // ---- the frames hold what their levels say

  ghost predicate FrameSays(c: Code, m: Brackets, f: Frame, pos: nat)
    requires m.Matched?
  {
    pos <= |c| && f.qsql == PhraseAt(c, m, pos) && f.segStart == ItemStarts(c, m, pos) && f.kind == KindAt(c, pos)
  }

  /** The bottom frames stand where their brackets open, the top one at `pos`. */
  ghost predicate FramesSay(c: Code, m: Brackets, stack: seq<Frame>, opens: seq<nat>, pos: nat)
    requires m.Matched?
  {
    && |stack| == |opens| + 1
    && (forall i :: 0 <= i < |opens| ==> FrameSays(c, m, stack[i], opens[i]))
    && FrameSays(c, m, stack[|opens|], pos)
  }

  ghost predicate Told(c: Code, m: Brackets, pos: nat, st: Scan)
    requires m.Matched? && pos <= |c|
  {
    FramesSay(c, m, st.stack, OpensAt(c, pos), pos)
  }

  lemma FramesSayTop(c: Code, m: Brackets, stack: seq<Frame>, stack': seq<Frame>, opens: seq<nat>, pos: nat, next: nat)
    requires m.Matched? && FramesSay(c, m, stack, opens, pos) && |stack'| == |stack|
    requires stack'[..|stack| - 1] == stack[..|stack| - 1] && FrameSays(c, m, stack'[|stack| - 1], next)
    ensures FramesSay(c, m, stack', opens, next)
  {
    hide FrameSays;
    forall i | 0 <= i < |opens| ensures FrameSays(c, m, stack'[i], opens[i]) {
      assert stack'[i] == stack'[..|stack| - 1][i] == stack[i];
    }
  }

  lemma FramesSayPush(c: Code, m: Brackets, stack: seq<Frame>, opens: seq<nat>, f: Frame, pos: nat, next: nat)
    requires m.Matched? && FramesSay(c, m, stack, opens, pos) && FrameSays(c, m, f, next)
    ensures FramesSay(c, m, stack + [f], opens + [pos], next)
  {
    hide FrameSays;
  }

  lemma FramesSayPop(c: Code, m: Brackets, stack: seq<Frame>, opens: seq<nat>, pos: nat)
    requires m.Matched? && FramesSay(c, m, stack, opens, pos) && opens != []
    ensures FramesSay(c, m, stack[..|stack| - 1], opens[..|opens| - 1], opens[|opens| - 1])
  {
    hide FrameSays;
  }

  // ---- one round

  lemma NotBracket(c: Code, pos: nat)
    requires pos < |c| && c[pos].kind != Op
    ensures !OpenerAt(c, pos) && !CloserAt(c, pos) && !SemicolonAt(c, pos)
  {
  }

  /** No bracket passed, so the level is the same. */
  lemma SameLevel(c: Code, pos: nat)
    requires pos < |c| && !OpenerAt(c, pos) && !CloserAt(c, pos)
    ensures OpensAt(c, pos + 1) == OpensAt(c, pos) && KindAt(c, pos + 1) == KindAt(c, pos)
  {
    OpensStep(c, pos);
    hide OpensAt, OpenerAt, CloserAt, KeysOpen;
  }

  lemma WordMoves(q: Phrase, word: string)
    ensures word in QSQL_START ==> PhraseAfter(q, word) == Cols
    ensures word !in QSQL_START && NextPhrase(q, word) != NoPhrase ==>
              PhraseAfter(q, word) == NextPhrase(q, word) && PhraseAfter(q, word) != q
    ensures word !in QSQL_START && NextPhrase(q, word) == NoPhrase ==> PhraseAfter(q, word) == q
  {
  }

  /** What the top frame becomes at a name. */
  lemma NameTop(c: Code, m: Brackets, pos: nat, st: Scan)
    requires m.Matched? && pos < |c| && st.stack != []
    ensures var stack' := NameStep(c, m, pos, st).stack;
            var f, name := TopOf(st), c[pos].text;
            && |stack'| == |st.stack| && stack'[..|st.stack| - 1] == st.stack[..|st.stack| - 1]
            && stack'[|st.stack| - 1].kind == f.kind
            && stack'[|st.stack| - 1].qsql == PhraseAfter(f.qsql, name)
            && stack'[|st.stack| - 1].segStart ==
                 (PhraseAfter(f.qsql, name) != From && (name in QSQL_START || PhraseAfter(f.qsql, name) != f.qsql))
  {
    WordMoves(TopOf(st).qsql, c[pos].text);
    hide PhraseAfter, NextPhrase, RoleOf, LookupLevel, Called, InColumnPhrase, RelativeDotted, IsRelative, QSQL_START;
  }

  lemma NameTells(c: Code, m: Brackets, pos: nat, st: Scan)
    requires m.Matched? && pos < |c| && c[pos].kind == Name && st.stack != [] && Told(c, m, pos, st)
    ensures Told(c, m, pos + 1, NameStep(c, m, pos, st))
  {
    hide *;
    NotBracket(c, pos);
    SameLevel(c, pos);
    ToldIs(c, m, pos, st);
    FrameOnTop(c, m, st.stack, OpensAt(c, pos), pos);
    NameTop(c, m, pos, st);
    TopIs(st);
    var st' := NameStep(c, m, pos, st);
    var n := |st.stack| - 1;
    NameSays(c, m, st.stack[n], st'.stack[n], pos);
    FramesSayTop(c, m, st.stack, st'.stack, OpensAt(c, pos), pos, pos + 1);
    ToldIs(c, m, pos + 1, st');
  }

  lemma TopIs(st: Scan)
    requires st.stack != []
    ensures TopOf(st) == st.stack[|st.stack| - 1]
  {
  }

  lemma FrameOnTop(c: Code, m: Brackets, stack: seq<Frame>, opens: seq<nat>, pos: nat)
    requires m.Matched? && FramesSay(c, m, stack, opens, pos)
    ensures |stack| == |opens| + 1 && FrameSays(c, m, stack[|opens|], pos)
  {
    hide FrameSays;
  }

  /** A name's frame after it. */
  lemma NameSays(c: Code, m: Brackets, f: Frame, f': Frame, pos: nat)
    requires m.Matched? && pos < |c| && c[pos].kind == Name && FrameSays(c, m, f, pos) && f'.kind == f.kind
    requires KindAt(c, pos + 1) == KindAt(c, pos) && f'.qsql == PhraseAfter(f.qsql, c[pos].text)
    requires f'.segStart == (PhraseAfter(f.qsql, c[pos].text) != From &&
                             (c[pos].text in QSQL_START || PhraseAfter(f.qsql, c[pos].text) != f.qsql))
    ensures FrameSays(c, m, f', pos + 1)
  {
    NotBracket(c, pos);
    hide PhraseAfter, KindAt, QSQL_START, OpenerAt, CloserAt, SemicolonAt, KeysOpen;
  }

  /** What the top frame becomes at anything but a name or a bracket. */
  lemma QuietTop(c: Code, m: Brackets, pos: nat, st: Scan)
    requires Pairs(c, m) && pos < |c| && c[pos].kind != Name && !OpenerAt(c, pos) && !CloserAt(c, pos)
    requires st.stack != []
    ensures var (st', next) := WalkStep(c, m, pos, st);
            var f := TopOf(st);
            && next == pos + 1 && |st'.stack| == |st.stack|
            && st'.stack[..|st.stack| - 1] == st.stack[..|st.stack| - 1]
            && st'.stack[|st.stack| - 1].kind == f.kind
            && st'.stack[|st.stack| - 1].qsql == (if SemicolonAt(c, pos) then NoPhrase else f.qsql)
            && st'.stack[|st.stack| - 1].segStart ==
                 (SemicolonAt(c, pos) || (HasKind(c, pos, Op) && c[pos].text == "," && OfColumns(f.qsql)))
  {
    hide Pairs, RelativeSymbol;
  }

  lemma QuietTells(c: Code, m: Brackets, pos: nat, st: Scan)
    requires Pairs(c, m) && pos < |c| && c[pos].kind != Name && !OpenerAt(c, pos) && !CloserAt(c, pos)
    requires st.stack != [] && Told(c, m, pos, st)
    ensures WalkStep(c, m, pos, st).1 == pos + 1 && Told(c, m, pos + 1, WalkStep(c, m, pos, st).0)
  {
    assert m.Matched?;
    assert PhraseAt(c, m, pos + 1) == (if SemicolonAt(c, pos) then NoPhrase else PhraseAt(c, m, pos));
    var st' := WalkStep(c, m, pos, st).0;
    hide WalkStep, OpensAt, KindAt, OpenerAt, CloserAt, Pairs;
    SameLevel(c, pos);
    QuietTop(c, m, pos, st);
    FramesSayTop(c, m, st.stack, st'.stack, OpensAt(c, pos), pos, pos + 1);
  }

  /** Inside a bracket just opened. */
  lemma JustOpened(c: Code, m: Brackets, pos: nat)
    requires m.Matched? && pos < |c| && OpenerAt(c, pos)
    ensures OpensAt(c, pos + 1) == OpensAt(c, pos) + [pos] && InnermostOpen(c, pos + 1) == Some(pos)
    ensures PhraseAt(c, m, pos + 1) == NoPhrase && ItemStarts(c, m, pos + 1) == KeysOpen(c, pos)
  {
    OpensStep(c, pos);
    assert !SemicolonAt(c, pos);
    hide OpensAt, OpenerAt, KeysOpen;
  }

  /** The table a key list's bracket stands in is the frame below it. */
  lemma TableBelow(c: Code, pos: nat)
    requires pos < |c|
    ensures KindAt(c, pos) == Table <==> InTable(c, pos)
  {
    var o := InnermostOpen(c, pos);
    if o.Some? { OpensAround(c, pos, |OpensAt(c, pos)| - 1); }
    hide OpensAt, KeysOpen;
  }

  lemma BracketTells(c: Code, m: Brackets, pos: nat, st: Scan)
    requires Pairs(c, m) && pos < |c| && OpenerAt(c, pos) && c[pos].text != "{" && st.stack != []
    requires Told(c, m, pos, st)
    ensures var (st', last) := OpStep(c, m, pos, st);
            last == pos && Told(c, m, pos + 1, st')
  {
    hide *;
    BracketOp(c, pos);
    PairsMatch(c, m);
    ToldIs(c, m, pos, st);
    JustOpened(c, m, pos);
    FramesSayTopKind(c, m, st.stack, OpensAt(c, pos), pos);
    BracketTop(c, m, pos, st);
    var (st', last) := OpStep(c, m, pos, st);
    SaysNew(c, m, st'.stack[|st.stack|], pos);
    FramesSayPush(c, m, st.stack, OpensAt(c, pos), st'.stack[|st.stack|], pos, pos + 1);
    ToldIs(c, m, pos + 1, st');
  }

  lemma BracketOp(c: Code, pos: nat)
    requires OpenerAt(c, pos) || CloserAt(c, pos)
    ensures pos < |c| && c[pos].kind == Op
  {
  }

  lemma PairsMatch(c: Code, m: Brackets)
    requires Pairs(c, m)
    ensures m.Matched?
  {
  }

  lemma FramesSayTopKind(c: Code, m: Brackets, stack: seq<Frame>, opens: seq<nat>, pos: nat)
    requires m.Matched? && FramesSay(c, m, stack, opens, pos)
    ensures |stack| == |opens| + 1 && pos <= |c| && stack[|opens|].kind == KindAt(c, pos)
  {
    hide KindAt, PhraseAt, ItemStarts;
  }

  /** The frame a round or square bracket pushes. */
  lemma BracketTop(c: Code, m: Brackets, pos: nat, st: Scan)
    requires Pairs(c, m) && pos < |c| && OpenerAt(c, pos) && c[pos].text != "{" && st.stack != [] && c[pos].kind == Op
    requires st.stack[|st.stack| - 1].kind == KindAt(c, pos)
    ensures var (st', last) := OpStep(c, m, pos, st);
            && last == pos && |st'.stack| == |st.stack| + 1 && st'.stack == st.stack + [st'.stack[|st.stack|]]
            && var f := st'.stack[|st.stack|];
               && f.qsql == NoPhrase && f.segStart == KeysOpen(c, pos)
               && f.kind == (if c[pos].text == "(" then (if TextAt(c, pos + 1) == "[" then Table else Paren)
                             else if KeysOpen(c, pos) then TableKey else Bracket)
  {
    TableBelow(c, pos);
    hide Pairs, KindAt, InTable;
  }

  lemma SaysNew(c: Code, m: Brackets, f: Frame, pos: nat)
    requires m.Matched? && pos < |c| && OpenerAt(c, pos) && c[pos].text != "{" && InnermostOpen(c, pos + 1) == Some(pos)
    requires PhraseAt(c, m, pos + 1) == NoPhrase && ItemStarts(c, m, pos + 1) == KeysOpen(c, pos)
    requires f.qsql == NoPhrase && f.segStart == KeysOpen(c, pos)
    requires f.kind == (if c[pos].text == "(" then (if TextAt(c, pos + 1) == "[" then Table else Paren)
                        else if KeysOpen(c, pos) then TableKey else Bracket)
    ensures FrameSays(c, m, f, pos + 1)
  {
    hide PhraseAt, ItemStarts, KeysOpen, InnermostOpen, OpenerAt;
  }

  /** Past a closed group: the level's phrase is what it was before it. */
  lemma JustClosed(c: Code, m: Brackets, pos: nat)
    requires WellNested(c, m) && pos < |c| && CloserAt(c, pos)
    ensures m.Matched? && pos in m.open && m.open[pos] < pos && PhraseAt(c, m, pos + 1) == PhraseAt(c, m, m.open[pos])
    ensures ItemStarts(c, m, pos + 1) == (KeysOpen(c, m.open[pos]) || ItemStarts(c, m, m.open[pos]))
    ensures OpenerAt(c, m.open[pos]) && OpensAt(c, pos + 1) == OpensAt(c, m.open[pos])
    ensures KindAt(c, pos + 1) == KindAt(c, m.open[pos])
  {
    hide *;
    HasPairs(c, m);
    ClosedIs(c, m, pos);
    OpenedBy(c, m, pos);
    OpensPast(c, m, m.open[pos]);
    ReadOver(c, m, pos);
    SameKind(c, pos + 1, m.open[pos]);
  }

  lemma SameKind(c: Code, p: nat, q: nat)
    requires p <= |c| && q <= |c| && OpensAt(c, p) == OpensAt(c, q)
    ensures KindAt(c, p) == KindAt(c, q)
  {
    hide OpensAt, KeysOpen;
  }

  lemma OpenedBy(c: Code, m: Brackets, q: nat)
    requires Pairs(c, m) && q in m.open
    ensures m.open[q] < q < |c| && OpenerAt(c, m.open[q]) && m.open[q] in m.close && m.close[m.open[q]] == q
  {
    hide OpenerAt, CloserAt, CloserOf;
  }

  lemma HasPairs(c: Code, m: Brackets)
    requires WellNested(c, m)
    ensures Pairs(c, m) && m.Matched?
  {
  }

  lemma ReadOver(c: Code, m: Brackets, pos: nat)
    requires m.Matched? && pos < |c| && CloserAt(c, pos) && pos in m.open && m.open[pos] < pos
    ensures PhraseAt(c, m, pos + 1) == PhraseAt(c, m, m.open[pos])
    ensures ItemStarts(c, m, pos + 1) == (KeysOpen(c, m.open[pos]) || ItemStarts(c, m, m.open[pos]))
  {
    NotBoth(c, pos);
    assert !SemicolonAt(c, pos);
    hide OpenerAt, CloserAt, KeysOpen, SemicolonAt;
  }

  lemma CloserTop(c: Code, m: Brackets, pos: nat, st: Scan)
    requires Pairs(c, m) && pos < |c| && CloserAt(c, pos) && |st.stack| >= 2
    ensures var (st', last) := OpStep(c, m, pos, st);
            var n := |st.stack| - 2;
            && last == pos && |st'.stack| == n + 1 && st'.stack[..n] == st.stack[..n]
            && st'.stack[n] == st.stack[n].(segStart := st.stack[n + 1].kind == TableKey || st.stack[n].segStart)
  {
    NotBoth(c, pos);
    hide Pairs;
  }

  lemma KeysKind(c: Code, pos: nat)
    requires pos <= |c| && InnermostOpen(c, pos).Some?
    ensures var o := InnermostOpen(c, pos).value;
            o < pos && (KindAt(c, pos) == TableKey <==> KeysOpen(c, o))
  {
    OpensAround(c, pos, |OpensAt(c, pos)| - 1);
    hide OpensAt;
  }

  lemma CloserTells(c: Code, m: Brackets, pos: nat, st: Scan)
    requires WellNested(c, m) && pos < |c| && CloserAt(c, pos) && st.stack != [] && Told(c, m, pos, st)
    ensures |st.stack| >= 2 && Told(c, m, pos + 1, OpStep(c, m, pos, st).0) && OpStep(c, m, pos, st).1 == pos
  {
    hide *;
    HasPairs(c, m);
    BracketOp(c, pos);
    ToldIs(c, m, pos, st);
    var opens, n := OpensAt(c, pos), |st.stack| - 2;
    ClosedIs(c, m, pos);
    CloserTop(c, m, pos, st);
    JustClosed(c, m, pos);
    InnermostIs(c, pos);
    KeysKind(c, pos);
    FramesSayPop(c, m, st.stack, opens, pos);
    FramesSayLast(c, m, st.stack, opens, pos);
    OpensStep(c, pos);
    NotBoth(c, pos);
    var st' := OpStep(c, m, pos, st).0;
    assert st.stack[..n + 1][..n] == st.stack[..n];
    SaysMore(c, m, st.stack[n], st'.stack[n], opens[n], pos + 1, st.stack[n + 1].kind == TableKey);
    FramesSayTop(c, m, st.stack[..n + 1], st'.stack, opens[..n], opens[n], pos + 1);
    ToldIs(c, m, pos + 1, st');
  }

  lemma ToldIs(c: Code, m: Brackets, pos: nat, st: Scan)
    requires m.Matched? && pos <= |c|
    ensures Told(c, m, pos, st) <==> FramesSay(c, m, st.stack, OpensAt(c, pos), pos)
    ensures Told(c, m, pos, st) ==> |st.stack| == |OpensAt(c, pos)| + 1
  {
    hide OpensAt, FrameSays;
  }

  lemma InnermostIs(c: Code, pos: nat)
    requires pos <= |c|
    ensures InnermostOpen(c, pos) ==
              if OpensAt(c, pos) == [] then None else Some(OpensAt(c, pos)[|OpensAt(c, pos)| - 1])
  {
    hide OpensAt;
  }

  lemma FramesSayLast(c: Code, m: Brackets, stack: seq<Frame>, opens: seq<nat>, pos: nat)
    requires m.Matched? && FramesSay(c, m, stack, opens, pos) && opens != []
    ensures |stack| == |opens| + 1 && opens[|opens| - 1] <= |c| && pos <= |c|
    ensures FrameSays(c, m, stack[|opens| - 1], opens[|opens| - 1])
    ensures stack[|opens|].kind == KindAt(c, pos)
  {
    hide KindAt, PhraseAt, ItemStarts;
    assert FrameSays(c, m, stack[|opens| - 1], opens[|opens| - 1]) && FrameSays(c, m, stack[|opens|], pos);
  }

  lemma SaysMore(c: Code, m: Brackets, f: Frame, g: Frame, p: nat, q: nat, more: bool)
    requires m.Matched? && FrameSays(c, m, f, p) && q <= |c| && p <= |c| && g == f.(segStart := more || f.segStart)
    requires PhraseAt(c, m, q) == PhraseAt(c, m, p) && KindAt(c, q) == KindAt(c, p)
    requires ItemStarts(c, m, q) == (more || ItemStarts(c, m, p))
    ensures FrameSays(c, m, g, q)
  {
    hide KindAt, PhraseAt, ItemStarts;
  }

  /** Past a lambda's parameters its body starts a level of its own. */
  lemma BodyStarts(c: Code, m: Brackets, pos: nat)
    requires WellNested(c, m) && pos < |c| && OpenerAt(c, pos) && c[pos].text == "{" && m.Matched?
    ensures var next := if HasParams(c, m, pos) then m.close[pos + 1] + 1 else pos + 1;
            && next <= |c| && OpensAt(c, next) == OpensAt(c, pos) + [pos]
            && PhraseAt(c, m, next) == NoPhrase && !ItemStarts(c, m, next) && KindAt(c, next) == InLambda
  {
    hide *;
    HasPairs(c, m);
    OpensPastParams(c, m, pos);
    JustOpened(c, m, pos);
    InnermostIs(c, pos + 1);
    BraceKind(c, pos);
    if HasParams(c, m, pos) {
      ParamsPair(c, m, pos);
      PairOf(c, m, pos + 1);
      JustClosed(c, m, m.close[pos + 1]);
      SameKind(c, m.close[pos + 1] + 1, pos + 1);
    }
  }

  lemma BraceKind(c: Code, pos: nat)
    requires pos < |c| && OpenerAt(c, pos) && c[pos].text == "{" && InnermostOpen(c, pos + 1) == Some(pos)
    ensures KindAt(c, pos + 1) == InLambda && !KeysOpen(c, pos)
    ensures pos + 1 < |c| ==> !KeysOpen(c, pos + 1)
  {
    hide InnermostOpen, OpenerAt;
  }

  lemma LambdaTells(c: Code, m: Brackets, pos: nat, st: Scan)
    requires WellNested(c, m) && pos < |c| && OpenerAt(c, pos) && c[pos].text == "{" && st.stack != []
    requires Told(c, m, pos, st)
    ensures var (st', last) := OpStep(c, m, pos, st); Told(c, m, last + 1, st')
  {
    hide *;
    HasPairs(c, m);
    BracketOp(c, pos);
    var (st', last) := OpStep(c, m, pos, st);
    var f := Frame(InLambda, Some(|st.lams|), NoPhrase, false);
    LambdaOpens(c, m, pos, st, f);
    BodyStarts(c, m, pos);
    SaysNothing(c, m, f, last + 1);
    ToldIs(c, m, pos, st);
    FramesSayPush(c, m, st.stack, OpensAt(c, pos), f, pos, last + 1);
    ToldIs(c, m, last + 1, st');
  }

  lemma SaysNothing(c: Code, m: Brackets, f: Frame, pos: nat)
    requires m.Matched? && pos <= |c| && f.qsql == NoPhrase && !f.segStart && f.kind == InLambda
    requires PhraseAt(c, m, pos) == NoPhrase && !ItemStarts(c, m, pos) && KindAt(c, pos) == InLambda
    ensures FrameSays(c, m, f, pos)
  {
    hide KindAt, PhraseAt, ItemStarts;
  }

  lemma StepTells(c: Code, m: Brackets, pos: nat, st: Scan)
    requires WellNested(c, m) && pos < |c| && st.stack != [] && Told(c, m, pos, st)
    ensures var (st', next) := WalkStep(c, m, pos, st); Told(c, m, next, st')
  {
    hide *;
    HasPairs(c, m);
    StepIs(c, m, pos, st);
    if OpenerAt(c, pos) || CloserAt(c, pos) { BracketOp(c, pos); }
    if c[pos].kind == Name {
      NameTells(c, m, pos, st);
    } else if CloserAt(c, pos) {
      CloserTells(c, m, pos, st);
    } else if !OpenerAt(c, pos) {
      QuietTells(c, m, pos, st);
    } else if c[pos].text == "{" {
      LambdaTells(c, m, pos, st);
    } else {
      BracketTells(c, m, pos, st);
    }
  }

  // ---- a use in a column phrase

  /** A level around `pos`, by the position on it, with no lambda's brace between. */
  ghost predicate Around(c: Code, m: Brackets, e: nat, pos: nat)
    requires m.Matched?
  {
    && e <= pos <= |c| && (e == pos || StillOpen(c, m, pos, e))
    && forall p: nat :: e <= p && StillOpen(c, m, pos, p) ==> c[p].text != "{"
  }

  /** Some level around `pos`, no further out than the innermost lambda's body, is in a column phrase. */
  ghost predicate InPhrase(c: Code, m: Brackets, pos: nat)
    requires m.Matched?
  {
    exists e: nat :: Around(c, m, e, pos) && OfColumns(PhraseAt(c, m, e))
  }

  /** The frame holds a column phrase, and no lambda's frame is above it. */
  predicate Reaches(stack: seq<Frame>, i: int) {
    0 <= i < |stack| && OfColumns(stack[i].qsql) && forall j :: i < j < |stack| ==> stack[j].kind != InLambda
  }

  lemma {:induction false} PhraseReaches(stack: seq<Frame>)
    ensures InColumnPhrase(stack) <==> exists i :: Reaches(stack, i)
    decreases |stack|
  {
    if stack != [] {
      var n := |stack| - 1;
      PhraseReaches(stack[..n]);
      if i :| Reaches(stack, i) {
        if i < n { assert Reaches(stack[..n], i); }
      }
      if OfColumns(stack[n].qsql) {
        assert Reaches(stack, n);
      } else if InColumnPhrase(stack) {
        var i :| Reaches(stack[..n], i);
        assert Reaches(stack, i);
      }
    }
  }

  function LevelPos(opens: seq<nat>, pos: nat, i: nat): nat
    requires i <= |opens|
  {
    if i < |opens| then opens[i] else pos
  }

  /** A lambda's frame is the one its brace opened. */
  lemma LambdaFrame(c: Code, m: Brackets, stack: seq<Frame>, opens: seq<nat>, pos: nat, j: nat)
    requires m.Matched? && pos <= |c| && opens == OpensAt(c, pos) && FramesSay(c, m, stack, opens, pos)
    requires 0 < j < |stack|
    ensures j <= |opens| && opens[j - 1] < |c| && (stack[j].kind == InLambda <==> c[opens[j - 1]].text == "{")
  {
    hide PhraseAt, ItemStarts, OpensAt, KeysOpen;
    OpensAround(c, pos, j - 1);
    if j < |opens| { OpensAround(c, pos, j); }
    assert FrameSays(c, m, stack[j], LevelPos(opens, pos, j));
    var at := LevelPos(opens, pos, j);
    assert OpensAt(c, at) == opens[..j];
    assert opens[..j][j - 1] == opens[j - 1];
  }

  lemma FramesPhrase(c: Code, m: Brackets, stack: seq<Frame>, opens: seq<nat>, pos: nat, i: nat)
    requires m.Matched? && FramesSay(c, m, stack, opens, pos) && i <= |opens|
    ensures i < |stack| && LevelPos(opens, pos, i) <= |c| && stack[i].qsql == PhraseAt(c, m, LevelPos(opens, pos, i))
  {
    hide PhraseAt, ItemStarts, KindAt;
    assert FrameSays(c, m, stack[i], LevelPos(opens, pos, i));
  }

  /** What the stack reaches is a level around the position. */
  lemma ReachedIsAround(c: Code, m: Brackets, stack: seq<Frame>, opens: seq<nat>, pos: nat, i: nat)
    requires WellNested(c, m) && m.Matched? && pos <= |c| && opens == OpensAt(c, pos)
    requires FramesSay(c, m, stack, opens, pos)
    requires Reaches(stack, i)
    ensures InPhrase(c, m, pos)
  {
    hide OpensAt, WellNested, KindAt, PhraseAt, ItemStarts, OpenerAt, CloserAt, FramesSay, OfColumns;
    OpenExactly(c, m, pos);
    FramesSayTopKind(c, m, stack, opens, pos);
    FramesPhrase(c, m, stack, opens, pos, i);
    var e := LevelPos(opens, pos, i);
    assert e == pos || e in opens;
    forall p: nat | e <= p && StillOpen(c, m, pos, p) ensures c[p].text != "{" {
      var k: nat :| k < |opens| && opens[k] == p;
      assert i <= k;
      LambdaFrame(c, m, stack, opens, pos, k + 1);
    }
    assert Around(c, m, e, pos);
  }

  /** A level around the position is what some frame holds, reached from the top. */
  lemma AroundIsReached(c: Code, m: Brackets, stack: seq<Frame>, opens: seq<nat>, pos: nat, e: nat)
    requires WellNested(c, m) && m.Matched? && pos <= |c| && opens == OpensAt(c, pos)
    requires FramesSay(c, m, stack, opens, pos)
    requires Around(c, m, e, pos) && OfColumns(PhraseAt(c, m, e))
    ensures exists i :: Reaches(stack, i)
  {
    hide OpensAt, WellNested, KindAt, PhraseAt, ItemStarts, OpenerAt, CloserAt, FramesSay, OfColumns;
    OpenExactly(c, m, pos);
    FramesSayTopKind(c, m, stack, opens, pos);
    var i: nat := |opens|;
    if e != pos { i :| i < |opens| && opens[i] == e; }
    FramesPhrase(c, m, stack, opens, pos, i);
    forall j | i < j < |stack| ensures stack[j].kind != InLambda {
      assert opens[j - 1] in opens;
      LambdaFrame(c, m, stack, opens, pos, j);
    }
    assert Reaches(stack, i);
  }

  lemma ColumnsTold(c: Code, m: Brackets, pos: nat, st: Scan)
    requires WellNested(c, m) && m.Matched? && pos <= |c| && Told(c, m, pos, st)
    ensures InColumnPhrase(st.stack) <==> InPhrase(c, m, pos)
  {
    hide *;
    ToldIs(c, m, pos, st);
    PhraseReaches(st.stack);
    if i :| Reaches(st.stack, i) {
      ReachesNat(st.stack, i);
      ReachedIsAround(c, m, st.stack, OpensAt(c, pos), pos, i);
    }
    if InPhrase(c, m, pos) {
      var e := PhraseLevel(c, m, pos);
      AroundIsReached(c, m, st.stack, OpensAt(c, pos), pos, e);
    }
  }

  lemma ReachesNat(stack: seq<Frame>, i: int)
    requires Reaches(stack, i)
    ensures 0 <= i < |stack|
  {
  }

  lemma PhraseLevel(c: Code, m: Brackets, pos: nat) returns (e: nat)
    requires m.Matched? && InPhrase(c, m, pos)
    ensures e <= |c| && Around(c, m, e, pos) && OfColumns(PhraseAt(c, m, e))
  {
    hide StillOpen, PhraseAt;
    e :| Around(c, m, e, pos) && OfColumns(PhraseAt(c, m, e));
  }
}
