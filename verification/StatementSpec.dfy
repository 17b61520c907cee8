/** What the scan of a statement records, said of the statement's tokens and brackets. */
module StatementSpec {
  import opened Options
  import opened Lexer
  import opened QWords
  import opened Scanner
  import opened Renaming
  import opened ScannerProofs
  import opened Phrases

  // ---- what stands around a position

  predicate OpAt(c: Code, pos: int, t: string) { HasKind(c, pos, Op) && c[pos].text == t }

  /** One of q's one-character verbs, directly followed by a colon. */
  predicate Modifies(c: Code, pos: int) {
    && HasKind(c, pos, Op) && |c[pos].text| == 1 && c[pos].text[0] in "+-*%&|^=<>,#_~!?@.$"
    && TextAt(c, pos + 1) == ":" && c[pos + 1].idx == c[pos].idx + 1
  }

  predicate AssignmentAt(c: Code, pos: int) { OpAt(c, pos, ":") || OpAt(c, pos, "::") || Modifies(c, pos) }

  /** A lambda's brace. */
  predicate BraceAt(c: Code, q: int) { HasKind(c, q, Op) && c[q].text == "{" }

  /** The brace's parameter list opens directly behind it. */
  predicate ListedAt(c: Code, q: int) {
    BraceAt(c, q) && OpAt(c, q + 1, "[") && c[q + 1].idx == c[q].idx + 1
  }

  /** Inside some brace's parameter list, its brackets included. */
  ghost predicate InParameters(c: Code, m: Brackets, pos: nat)
    requires m.Matched?
  {
    exists q: nat :: ListsPast(c, m, q, pos)
  }

  ghost predicate ListsPast(c: Code, m: Brackets, q: nat, pos: nat)
    requires m.Matched?
  {
    ListedAt(c, q) && q + 1 in m.close && q < pos <= m.close[q + 1]
  }

  /** A qSQL word, where it is one. */
  predicate PhraseWord(c: Code, m: Brackets, pos: nat)
    requires m.Matched? && pos < |c|
  {
    var q, word := PhraseAt(c, m, pos), c[pos].text;
    word in {"select", "exec", "update", "delete"} || PhraseAfter(q, word) != q
  }

  /** A name that is used: no parameter and no word of a phrase. */
  ghost predicate UsedAt(c: Code, m: Brackets, pos: nat)
    requires m.Matched?
  {
    HasKind(c, pos, Name) && !InParameters(c, m, pos) && !PhraseWord(c, m, pos)
  }

  // ---- how a name is used

  /** Directly inside the brackets of a table literal's key columns. */
  predicate InKeys(c: Code, pos: nat)
    requires pos <= |c|
  {
    var o := InnermostOpen(c, pos);
    o.Some? && o.value < |c| && KeysOpen(c, o.value)
  }

  /** The name stands where a column is given its name. */
  predicate ItemAt(c: Code, m: Brackets, pos: nat)
    requires m.Matched? && pos <= |c|
  {
    && ItemStarts(c, m, pos)
    && (|| InTable(c, pos)
        || InKeys(c, pos)
        || PhraseAt(c, m, pos) == Cols || PhraseAt(c, m, pos) == By)
  }

  /** What follows the name says how it is used. */
  predicate RoleFits(c: Code, m: Brackets, pos: nat, role: Role)
    requires m.Matched? && pos <= |c|
  {
    && (role == Column <==> OpAt(c, pos + 1, ":") && ItemAt(c, m, pos))
    && (role == Assign <==> OpAt(c, pos + 1, ":") && !ItemAt(c, m, pos))
    && (role == GAssign <==> OpAt(c, pos + 1, "::"))
    && (role == Compound <==> Modifies(c, pos + 1))
    && (role == Indexed <==> OpAt(c, pos + 1, "[") && pos + 1 in m.close && AssignmentAt(c, m.close[pos + 1] + 1))
  }

  /** A noun, an opening bracket or an adverb: what a function applied by juxtaposition has behind it. */
  predicate Applies(s: Sig) {
    match s.kind
    case Name => IsBuiltin(s.text) ==> s.text in {"each", "peach", "over", "scan", "prior"}
    case Num => true
    case Str => true
    case Sym => true
    case _ => s.text in {"(", "[", "{", "@", ".", "'", "/", "\\", "':", "/:", "\\:"}
  }

  /** Applied to what follows, or by `@[` or `.[` before it. */
  predicate AppliedAt(c: Code, pos: nat) {
    || (TextAt(c, pos - 1) == "[" && TextAt(c, pos - 2) in {"@", "."})
    || (pos + 1 < |c| && Applies(c[pos + 1]))
  }

  // ---- whose lambda it is

  /** The innermost lambda around `pos` is the one whose brace is at `q`. */
  ghost predicate InBrace(c: Code, m: Brackets, pos: nat, q: nat)
    requires m.Matched? && pos <= |c|
  {
    && StillOpen(c, m, pos, q) && c[q].text == "{"
    && forall p: nat :: StillOpen(c, m, pos, p) && c[p].text == "{" ==> p <= q
  }

  ghost predicate LambdaFits(c: Code, m: Brackets, pos: nat, lams: seq<Lambda>, lam: Option<nat>)
    requires m.Matched? && pos <= |c|
  {
    match lam
    case None => forall p: nat :: StillOpen(c, m, pos, p) ==> c[p].text != "{"
    case Some(k) => k < |lams| && InBrace(c, m, pos, lams[k].open)
  }

  /** One use, said of what stands around it. */
  ghost predicate UseFits(c: Code, m: Brackets, lams: seq<Lambda>, u: Use)
    requires m.Matched?
  {
    && u.pos < |c| && u.idx == c[u.pos].idx && UsedAt(c, m, u.pos)
    && LambdaFits(c, m, u.pos, lams, u.lam)
    && RoleFits(c, m, u.pos, u.role)
    && (u.columnCtx <==> InPhrase(c, m, u.pos))
    && (u.called <==> AppliedAt(c, u.pos))
  }

  // ---- a name's use is as it stands

  lemma RoleSaid(c: Code, m: Brackets, pos: nat, f: Frame)
    requires m.Matched? && pos < |c| && FrameSays(c, m, f, pos)
    ensures RoleFits(c, m, pos, RoleOf(c, m, pos, f))
  {
    hide *;
    ItemSaid(c, m, pos, f);
    AssignsSaid(c, pos + 1);
    if pos + 1 in m.close { AssignsSaid(c, m.close[pos + 1] + 1); }
    RoleIs(c, m, pos, f);
  }

  predicate NamesItem(f: Frame) {
    f.segStart && (f.kind == Table || f.kind == TableKey || f.qsql == Cols || f.qsql == By)
  }

  lemma ItemSaid(c: Code, m: Brackets, pos: nat, f: Frame)
    requires m.Matched? && pos < |c| && FrameSays(c, m, f, pos)
    ensures NamesItem(f) <==> ItemAt(c, m, pos)
  {
    hide PhraseAt, ItemStarts, InTable, KeysOpen, OpensAt, InnermostOpen;
    TableBelow(c, pos);
    if InnermostOpen(c, pos).Some? { KeysKind(c, pos); }
  }

  lemma AssignsSaid(c: Code, pos: nat)
    ensures AssignsAfter(c, pos) <==> AssignmentAt(c, pos)
    ensures AssignsAfter(c, pos) && c[pos].text != ":" && c[pos].text != "::" <==> Modifies(c, pos)
  {
    VerbSaid(TextAt(c, pos));
    hide IsAssignOp;
  }

  lemma VerbSaid(t: string)
    ensures IsAssignOp(t) <==> |t| == 1 && t[0] in "+-*%&|^=<>,#_~!?@.$"
    ensures IsAssignOp(t) ==> t != ":" && t != "::" && t != "["
  {
    var verbs := "+-*%&|^=<>,#_~!?@.$";
    if IsAssignOp(t) {
      assert t[0] in verbs;
    }
  }

  lemma RoleIs(c: Code, m: Brackets, pos: nat, f: Frame)
    requires m.Matched? && pos < |c|
    requires NamesItem(f) <==> ItemAt(c, m, pos)
    requires AssignsAfter(c, pos + 1) <==> AssignmentAt(c, pos + 1)
    requires AssignsAfter(c, pos + 1) && c[pos + 1].text != ":" && c[pos + 1].text != "::" <==> Modifies(c, pos + 1)
    requires pos + 1 in m.close ==>
               (AssignsAfter(c, m.close[pos + 1] + 1) <==> AssignmentAt(c, m.close[pos + 1] + 1))
    ensures RoleFits(c, m, pos, RoleOf(c, m, pos, f))
  {
    VerbSaid(TextAt(c, pos + 1));
    hide AssignsAfter, AssignmentAt, ItemAt, IsAssignOp;
  }

  lemma CalledSaid(c: Code, pos: nat)
    requires pos < |c|
    ensures Called(c, pos) <==> AppliedAt(c, pos)
  {
    hide IsBuiltin;
  }

  // ---- a round of the walk

  /** The round's state says what stands around its position. */
  ghost predicate Good(c: Code, m: Brackets, pos: nat, st: Scan)
    requires m.Matched? && pos <= |c|
  {
    st.stack != [] && Told(c, m, pos, st) && MirrorsAt(c, m, pos, st) && !InParameters(c, m, pos)
  }

  lemma ListedIs(c: Code, m: Brackets, pos: nat)
    requires m.Matched? && pos < |c| && OpenerAt(c, pos) && c[pos].text == "{" && WellNested(c, m)
    ensures HasParams(c, m, pos) <==> ListedAt(c, pos) && pos + 1 in m.close
  {
    assert Pairs(c, m);
    if pos + 1 in m.close { PairOf(c, m, pos + 1); }
    hide WellNested, Pairs;
  }

  lemma ListedOpens(c: Code, m: Brackets, q: nat)
    requires WellNested(c, m) && ListedAt(c, q)
    ensures m.Matched? && q + 1 in m.close && q + 1 < m.close[q + 1] < |c| && OpenerAt(c, q) && OpenerAt(c, q + 1)
    ensures CloserAt(c, m.close[q + 1])
  {
    assert OpenerAt(c, q) && OpenerAt(c, q + 1);
    hide OpenerAt, CloserAt, ListedAt, WellNested;
    HasPairs(c, m);
    OpenPairs(c, m, q + 1);
    PairOf(c, m, q + 1);
  }

  /** The walk never stops inside a parameter list. */
  lemma PastParameters(c: Code, m: Brackets, pos: nat, next: nat)
    requires WellNested(c, m) && m.Matched? && pos < |c| && !InParameters(c, m, pos)
    requires next == if ListedAt(c, pos) && pos + 1 in m.close then m.close[pos + 1] + 1 else pos + 1
    ensures !InParameters(c, m, next)
  {
    if InParameters(c, m, next) {
      var q: nat :| ListsPast(c, m, q, next);
      NoListPast(c, m, pos, next, q);
    }
  }

  lemma NoListPast(c: Code, m: Brackets, pos: nat, next: nat, q: nat)
    requires WellNested(c, m) && m.Matched? && pos < |c| && !InParameters(c, m, pos)
    requires next == if ListedAt(c, pos) && pos + 1 in m.close then m.close[pos + 1] + 1 else pos + 1
    ensures !ListsPast(c, m, q, next)
  {
    hide WellNested, ListedAt, OpenerAt, CloserAt, InParameters;
    if ListedAt(c, q) { ListedOpens(c, m, q); }
    if ListedAt(c, pos) { ListedOpens(c, m, pos); }
    if q < pos {
      if ListsPast(c, m, q, pos) { InParametersIs(c, m, q, pos); }
    } else if pos < q < next && ListedAt(c, q) {
      NotBoth(c, m.close[pos + 1]);
      TwoPairs(c, m, pos + 1, q + 1);
    }
  }

  lemma InParametersIs(c: Code, m: Brackets, q: nat, pos: nat)
    requires m.Matched? && ListsPast(c, m, q, pos)
    ensures InParameters(c, m, pos)
  {
    hide ListsPast;
  }

  /** Nothing between is used where the walk jumps. */
  lemma JumpedOver(c: Code, m: Brackets, pos: nat, p: nat)
    requires WellNested(c, m) && m.Matched? && ListedAt(c, pos) && pos < p <= m.close[pos + 1] && pos + 1 in m.close
    ensures InParameters(c, m, p)
  {
    hide WellNested, ListedAt;
    assert ListsPast(c, m, pos, p);
  }

  lemma StepGood(c: Code, m: Brackets, pos: nat, st: Scan)
    requires WellNested(c, m) && m.Matched? && pos < |c| && Good(c, m, pos, st)
    ensures var (st', next) := WalkStep(c, m, pos, st);
            && Good(c, m, next, st')
            && next == if ListedAt(c, pos) && pos + 1 in m.close then m.close[pos + 1] + 1 else pos + 1
  {
    hide *;
    HasPairs(c, m);
    GoodIs(c, m, pos, st);
    StepTells(c, m, pos, st);
    StepMirrors(c, m, pos, st);
    NextIs(c, m, pos, st);
    var (st', next) := WalkStep(c, m, pos, st);
    PastParameters(c, m, pos, next);
    GoodIs(c, m, next, st');
  }

  lemma GoodIs(c: Code, m: Brackets, pos: nat, st: Scan)
    requires m.Matched? && pos <= |c|
    ensures Good(c, m, pos, st) <==>
              st.stack != [] && Told(c, m, pos, st) && MirrorsAt(c, m, pos, st) && !InParameters(c, m, pos)
  {
    hide Told, MirrorsAt, InParameters;
  }

  lemma NextIs(c: Code, m: Brackets, pos: nat, st: Scan)
    requires WellNested(c, m) && m.Matched? && pos < |c| && Good(c, m, pos, st) && Pairs(c, m) && st.stack != []
    ensures WalkStep(c, m, pos, st).1 ==
              if ListedAt(c, pos) && pos + 1 in m.close then m.close[pos + 1] + 1 else pos + 1
  {
    if OpenerAt(c, pos) && c[pos].text == "{" { ListedIs(c, m, pos); }
    hide WellNested, Pairs, Good, HasParams, RelativeSymbol, NameStep, LambdaAt;
  }

  // ---- the uses are the names used

  lemma WordIs(c: Code, m: Brackets, pos: nat, q: Phrase)
    requires m.Matched? && pos < |c| && q == PhraseAt(c, m, pos)
    ensures PhraseWord(c, m, pos) <==> c[pos].text in QSQL_START || NextPhrase(q, c[pos].text) != NoPhrase
  {
    WordMoves(q, c[pos].text);
    hide PhraseAt, PhraseAfter, NextPhrase;
  }

  lemma TopSays(c: Code, m: Brackets, pos: nat, st: Scan)
    requires m.Matched? && pos <= |c| && st.stack != [] && Told(c, m, pos, st)
    ensures FrameSays(c, m, TopOf(st), pos)
  {
    hide FrameSays, OpensAt;
  }

  lemma LambdaSaid(c: Code, m: Brackets, pos: nat, st: Scan)
    requires WellNested(c, m) && m.Matched? && pos <= |c| && st.stack != [] && MirrorsAt(c, m, pos, st)
    ensures LambdaFits(c, m, pos, st.lams, TopOf(st).lam)
  {
    OpenExactly(c, m, pos);
    var opens := OpensAt(c, pos);
    hide WellNested, FrameFits, OpensAt, OpenerAt;
    TopIsInnermost(c, m, st.lams, st.stack, opens);
    assert forall p: nat :: StillOpen(c, m, pos, p) ==> p in opens && p < |c|;
  }

  /** What a name the walk stops at records. */
  lemma NameRecords(c: Code, m: Brackets, pos: nat, st: Scan)
    requires m.Matched? && pos < |c| && st.stack != [] && c[pos].kind == Name
    requires FrameSays(c, m, TopOf(st), pos) && !InParameters(c, m, pos)
    ensures NameStep(c, m, pos, st) ==
              if UsedAt(c, m, pos) then RecordName(c, m, pos, st)
              else WithTop(st, TopOf(NameStep(c, m, pos, st)))
  {
    WordIs(c, m, pos, TopOf(st).qsql);
    hide PhraseAt, ItemStarts, KindAt, InParameters, PhraseWord, NextPhrase, RecordName, QSQL_START;
  }

  lemma RecordedFits(c: Code, m: Brackets, pos: nat, st: Scan)
    requires WellNested(c, m) && m.Matched? && pos < |c| && Good(c, m, pos, st) && st.stack != [] && UsedAt(c, m, pos)
    ensures var st' := RecordName(c, m, pos, st);
            && |st'.uses| == |st.uses| + 1 && st'.uses[..|st.uses|] == st.uses
            && st'.uses[|st.uses|].pos == pos && UseFits(c, m, st.lams, st'.uses[|st.uses|])
  {
    hide *;
    GoodIs(c, m, pos, st);
    TopSays(c, m, pos, st);
    LambdaSaid(c, m, pos, st);
    RoleSaid(c, m, pos, TopOf(st));
    CalledSaid(c, pos);
    ColumnsTold(c, m, pos, st);
    RecordIs(c, m, pos, st);
    var st' := RecordName(c, m, pos, st);
    FitsBy(c, m, st.lams, st'.uses[|st.uses|]);
  }

  lemma RecordIs(c: Code, m: Brackets, pos: nat, st: Scan)
    requires m.Matched? && pos < |c| && st.stack != []
    ensures var f := TopOf(st);
            RecordName(c, m, pos, st).uses ==
              st.uses + [Use(pos, c[pos].idx, f.lam, RoleOf(c, m, pos, f), InColumnPhrase(st.stack), Called(c, pos))]
  {
    hide RoleOf, LookupLevel, Called, InColumnPhrase, RelativeDotted, IsRelative;
  }

  lemma FitsBy(c: Code, m: Brackets, lams: seq<Lambda>, u: Use)
    requires m.Matched? && u.pos < |c| && u.idx == c[u.pos].idx && UsedAt(c, m, u.pos)
    requires LambdaFits(c, m, u.pos, lams, u.lam) && RoleFits(c, m, u.pos, u.role)
    requires (u.columnCtx <==> InPhrase(c, m, u.pos)) && (u.called <==> AppliedAt(c, u.pos))
    ensures UseFits(c, m, lams, u)
  {
  }

  /** A round records a use exactly where a name is used. */
  lemma StepRecords(c: Code, m: Brackets, pos: nat, st: Scan)
    requires WellNested(c, m) && m.Matched? && pos < |c| && Good(c, m, pos, st)
    ensures Pairs(c, m) && st.stack != []
    ensures var st' := WalkStep(c, m, pos, st).0;
            if UsedAt(c, m, pos) then
              && |st'.uses| == |st.uses| + 1 && st'.uses[..|st.uses|] == st.uses
              && st'.uses[|st.uses|].pos == pos && UseFits(c, m, st.lams, st'.uses[|st.uses|])
            else st'.uses == st.uses
  {
    hide *;
    HasPairs(c, m);
    GoodIs(c, m, pos, st);
    TopSays(c, m, pos, st);
    StepIs(c, m, pos, st);
    StepUses(c, m, pos, st);
    if UsedAt(c, m, pos) { UsedIsName(c, m, pos); }
    if c[pos].kind == Name {
      NameRecords(c, m, pos, st);
      if UsedAt(c, m, pos) {
        RecordedFits(c, m, pos, st);
      } else {
        TopUses(st, TopOf(NameStep(c, m, pos, st)));
      }
    }
  }

  lemma UsedIsName(c: Code, m: Brackets, pos: nat)
    requires m.Matched? && UsedAt(c, m, pos)
    ensures pos < |c| && c[pos].kind == Name && !InParameters(c, m, pos)
  {
    hide InParameters, PhraseWord;
  }

  lemma TopUses(st: Scan, f: Frame)
    requires st.stack != []
    ensures WithTop(st, f).uses == st.uses && WithTop(st, f).lams == st.lams && WithTop(st, f).dotted == st.dotted
    ensures WithTop(st, f).lookups == st.lookups
  {
  }

  // ---- the lambdas are the braces, each with its parameters and its locals

  /** The names in the brace's parameter list. */
  function ParametersOf(c: Code, m: Brackets, q: nat): set<string>
    requires m.Matched?
  {
    set p | q < p < |c| && ListedAt(c, q) && q + 1 in m.close && p <= m.close[q + 1] && c[p].kind == Name :: c[p].text
  }

  /** What a brace says of its lambda, all but the names assigned inside. */
  ghost predicate LambdaShaped(c: Code, m: Brackets, lams: seq<Lambda>, l: Lambda)
    requires m.Matched?
  {
    && BraceAt(c, l.open) && !InParameters(c, m, l.open)
    && l.open in m.close && l.close == m.close[l.open]
    && (l.explicit <==> ListedAt(c, l.open)) && l.params == ParametersOf(c, m, l.open)
    && (l.applied <==> AppliedAt(c, l.close))
    && LambdaFits(c, m, l.open, lams, l.parent)
  }

  /** A relative name assigned directly inside the lambda whose brace is at `q`. */
  ghost predicate BecomesLocal(c: Code, m: Brackets, q: nat, p: nat)
    requires m.Matched?
  {
    && p < |c| && UsedAt(c, m, p) && OpAt(c, p + 1, ":") && !ItemAt(c, m, p)
    && IsRelative(c[p].text) && InBrace(c, m, p, q)
  }

  ghost function LocalNames(c: Code, m: Brackets, q: nat, pos: nat): set<string>
    requires m.Matched?
  {
    set p: nat | p < pos && p < |c| && BecomesLocal(c, m, q, p) :: c[p].text
  }

  lemma ParametersSaid(c: Code, m: Brackets, pos: nat)
    requires WellNested(c, m) && m.Matched? && pos < |c| && OpenerAt(c, pos) && c[pos].text == "{"
    requires HasParams(c, m, pos) <==> ListedAt(c, pos)
    requires ListedAt(c, pos) ==> pos + 1 in m.close && m.close[pos + 1] < |c|
    ensures (if HasParams(c, m, pos) then ParamNames(c, pos + 1, m.close[pos + 1]) else {}) == ParametersOf(c, m, pos)
  {
    hide HasParams, ListedAt, WellNested;
  }

  /** The lambda a brace records. */
  lemma BraceShaped(c: Code, m: Brackets, pos: nat, st: Scan)
    requires WellNested(c, m) && m.Matched? && pos < |c| && Good(c, m, pos, st) && BraceAt(c, pos)
    ensures Pairs(c, m) && OpenerAt(c, pos) && st.stack != []
    ensures LambdaShaped(c, m, st.lams, LambdaAt(c, m, pos, TopOf(st).lam))
  {
    assert OpenerAt(c, pos);
    hide *;
    HasPairs(c, m);
    GoodIs(c, m, pos, st);
    LambdaSaid(c, m, pos, st);
    BraceIs(c, pos);
    ListedIs(c, m, pos);
    if ListedAt(c, pos) { ListedOpens(c, m, pos); }
    OpenPairs(c, m, pos);
    PairOf(c, m, pos);
    CalledSaid(c, m.close[pos]);
    ParametersSaid(c, m, pos);
    LambdaAtIs(c, m, pos, TopOf(st).lam);
    ShapedBy(c, m, st.lams, LambdaAt(c, m, pos, TopOf(st).lam));
  }

  lemma BraceIs(c: Code, pos: nat)
    ensures BraceAt(c, pos) <==> OpenerAt(c, pos) && c[pos].text == "{"
    ensures BraceAt(c, pos) ==> pos < |c| && c[pos].kind == Op
  {
  }

  lemma LambdaAtIs(c: Code, m: Brackets, pos: nat, parent: Option<nat>)
    requires Pairs(c, m) && m.Matched? && OpenerAt(c, pos) && pos in m.close && m.close[pos] < |c| && pos < |c|
    requires HasParams(c, m, pos) ==> pos + 1 in m.close && m.close[pos + 1] < |c|
    ensures LambdaAt(c, m, pos, parent) ==
              Lambda(HasParams(c, m, pos), parent, Called(c, m.close[pos]),
                     if HasParams(c, m, pos) then ParamNames(c, pos + 1, m.close[pos + 1]) else {}, {}, pos,
                     m.close[pos])
  {
    hide HasParams, ParamNames, Called, Pairs, OpenerAt;
  }

  lemma ShapedBy(c: Code, m: Brackets, lams: seq<Lambda>, l: Lambda)
    requires m.Matched? && BraceAt(c, l.open) && !InParameters(c, m, l.open)
    requires l.open in m.close && l.close == m.close[l.open]
    requires (l.explicit <==> ListedAt(c, l.open)) && l.params == ParametersOf(c, m, l.open)
    requires (l.applied <==> AppliedAt(c, l.close)) && l.open <= |c| && LambdaFits(c, m, l.open, lams, l.parent)
    ensures LambdaShaped(c, m, lams, l)
  {
  }

  ghost predicate OpensAscend(lams: seq<Lambda>) { forall i, j :: 0 <= i < j < |lams| ==> lams[i].open < lams[j].open }

  function Localised(c: Code, l: Lambda, pos: nat, makes: bool): Lambda {
    if makes then l.(locals := l.locals + {TextAt(c, pos)}) else l
  }

  /** What a use adds to the lambdas: its name, to the innermost one around, when it makes a local. */
  lemma RecordLams(c: Code, m: Brackets, pos: nat, st: Scan)
    requires WellNested(c, m) && m.Matched? && pos < |c| && Good(c, m, pos, st) && st.stack != [] && UsedAt(c, m, pos)
    requires OpensAscend(st.lams)
    ensures var lams := RecordName(c, m, pos, st).lams;
            && |lams| == |st.lams|
            && forall k :: 0 <= k < |lams| ==>
                 lams[k] == Localised(c, st.lams[k], pos, BecomesLocal(c, m, st.lams[k].open, pos))
  {
    hide *;
    GoodIs(c, m, pos, st);
    TopSays(c, m, pos, st);
    LambdaSaid(c, m, pos, st);
    RoleSaid(c, m, pos, TopOf(st));
    forall k | 0 <= k < |st.lams| ensures BecomesLocal(c, m, st.lams[k].open, pos) <==>
               RoleOf(c, m, pos, TopOf(st)) == Assign && IsRelative(c[pos].text) && TopOf(st).lam == Some(k) {
      MakesIs(c, m, st.lams, TopOf(st).lam, pos, RoleOf(c, m, pos, TopOf(st)), k);
    }
    RecordLamsIs(c, m, pos, st);
    var lams := RecordName(c, m, pos, st).lams;
    forall k | 0 <= k < |lams|
      ensures lams[k] == Localised(c, st.lams[k], pos, BecomesLocal(c, m, st.lams[k].open, pos)) {
      LocalisedIs(c, st.lams[k], pos, BecomesLocal(c, m, st.lams[k].open, pos));
    }
  }

  lemma LocalisedIs(c: Code, l: Lambda, pos: nat, makes: bool)
    requires pos < |c|
    ensures Localised(c, l, pos, makes) == if makes then l.(locals := l.locals + {c[pos].text}) else l
  {
  }

  lemma MakesIs(c: Code, m: Brackets, lams: seq<Lambda>, lam: Option<nat>, pos: nat, role: Role, k: nat)
    requires m.Matched? && pos < |c| && k < |lams| && UsedAt(c, m, pos) && RoleFits(c, m, pos, role)
    requires LambdaFits(c, m, pos, lams, lam) && OpensAscend(lams)
    ensures BecomesLocal(c, m, lams[k].open, pos) <==> role == Assign && IsRelative(c[pos].text) && lam == Some(k)
  {
    hide UsedAt, ItemAt, IsRelative, StillOpen, AssignmentAt, Modifies;
  }

  lemma RecordLamsIs(c: Code, m: Brackets, pos: nat, st: Scan)
    requires m.Matched? && pos < |c| && st.stack != []
    ensures var lams := RecordName(c, m, pos, st).lams;
            && |lams| == |st.lams|
            && forall k :: 0 <= k < |lams| ==>
                 var makes := RoleOf(c, m, pos, TopOf(st)) == Assign && IsRelative(c[pos].text);
                 lams[k] == if makes && TopOf(st).lam == Some(k)
                            then st.lams[k].(locals := st.lams[k].locals + {c[pos].text}) else st.lams[k]
  {
    hide RoleOf, LookupLevel, Called, InColumnPhrase, RelativeDotted, IsRelative;
  }

  /** What a round does to the lambdas. */
  lemma StepMakes(c: Code, m: Brackets, pos: nat, st: Scan)
    requires WellNested(c, m) && m.Matched? && pos < |c| && Good(c, m, pos, st) && OpensAscend(st.lams)
    ensures Pairs(c, m) && st.stack != []
    ensures var lams := WalkStep(c, m, pos, st).0.lams;
            if BraceAt(c, pos) then
              && |lams| == |st.lams| + 1 && lams[..|st.lams|] == st.lams
              && lams[|st.lams|].open == pos && lams[|st.lams|].locals == {}
              && LambdaShaped(c, m, st.lams, lams[|st.lams|])
            else
              && |lams| == |st.lams|
              && forall k :: 0 <= k < |lams| ==>
                   lams[k] == Localised(c, st.lams[k], pos, BecomesLocal(c, m, st.lams[k].open, pos))
  {
    hide *;
    HasPairs(c, m);
    GoodIs(c, m, pos, st);
    BraceIs(c, pos);
    StepIs(c, m, pos, st);
    TopSays(c, m, pos, st);
    var st' := WalkStep(c, m, pos, st).0;
    if BraceAt(c, pos) {
      BraceShaped(c, m, pos, st);
      BraceOpens(c, m, pos, st);
    } else if UsedAt(c, m, pos) {
      UsedIsName(c, m, pos);
      NameRecords(c, m, pos, st);
      RecordLams(c, m, pos, st);
    } else {
      NotMade(c, m, pos, st.lams);
      if c[pos].kind == Name {
        NameRecords(c, m, pos, st);
        TopUses(st, TopOf(NameStep(c, m, pos, st)));
      } else {
        QuietLams(c, m, pos, st);
      }
    }
  }

  lemma BraceOpens(c: Code, m: Brackets, pos: nat, st: Scan)
    requires Pairs(c, m) && pos < |c| && BraceAt(c, pos) && OpenerAt(c, pos) && st.stack != [] && c[pos].kind == Op
    ensures OpStep(c, m, pos, st).0.lams == st.lams + [LambdaAt(c, m, pos, TopOf(st).lam)]
    ensures LambdaAt(c, m, pos, TopOf(st).lam).open == pos && LambdaAt(c, m, pos, TopOf(st).lam).locals == {}
  {
    hide Pairs, HasParams, Called, ParamNames, OpenerAt;
  }

  lemma NotMade(c: Code, m: Brackets, pos: nat, lams: seq<Lambda>)
    requires m.Matched? && !UsedAt(c, m, pos)
    ensures forall k :: 0 <= k < |lams| ==>
              Localised(c, lams[k], pos, BecomesLocal(c, m, lams[k].open, pos)) == lams[k]
  {
    hide UsedAt;
  }

  lemma QuietLams(c: Code, m: Brackets, pos: nat, st: Scan)
    requires Pairs(c, m) && pos < |c| && c[pos].kind != Name && !BraceAt(c, pos) && st.stack != []
    ensures WalkStep(c, m, pos, st).0.lams == st.lams && WalkStep(c, m, pos, st).0.dotted == st.dotted
  {
    hide Pairs, RelativeSymbol;
  }
}
