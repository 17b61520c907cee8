/** A parsed statement holds exactly the uses, lambdas and lookups its tokens and brackets say. */
module ParsedSays {
  import opened Options
  import opened Lexer
  import opened Scanner
  import opened Renaming
  import opened Flatten
  import opened ScannerProofs
  import opened Phrases
  import opened StatementSpec
  import opened Lookups

  // ---- the uses

  /** The uses recorded before `pos` are the names used there, in order, each as it stands. */
  ghost predicate UsesBefore(c: Code, m: Brackets, pos: nat, lams: seq<Lambda>, uses: seq<Use>)
    requires m.Matched?
  {
    && (forall i :: 0 <= i < |uses| ==> uses[i].pos < pos && UseFits(c, m, lams, uses[i]))
    && (forall i, j :: 0 <= i < j < |uses| ==> uses[i].pos < uses[j].pos)
    && (forall p: nat :: p < pos && UsedAt(c, m, p) ==> exists i :: 0 <= i < |uses| && uses[i].pos == p)
  }

  lemma LambdaFitsMore(c: Code, m: Brackets, pos: nat, lams: seq<Lambda>, lams': seq<Lambda>, lam: Option<nat>)
    requires m.Matched? && pos <= |c| && LambdaFits(c, m, pos, lams, lam) && LambdasGrow(lams, lams')
    ensures LambdaFits(c, m, pos, lams', lam)
  {
    hide InBrace, StillOpen;
  }

  lemma UseFitsMore(c: Code, m: Brackets, lams: seq<Lambda>, lams': seq<Lambda>, u: Use)
    requires m.Matched? && UseFits(c, m, lams, u) && LambdasGrow(lams, lams')
    ensures UseFits(c, m, lams', u)
  {
    hide UsedAt, RoleFits, InPhrase, AppliedAt, LambdaFits, LambdasGrow;
    LambdaFitsMore(c, m, u.pos, lams, lams', u.lam);
  }

  /** The next position the walk looks at. */
  function NextAt(c: Code, m: Brackets, pos: nat): nat
    requires m.Matched?
  {
    if ListedAt(c, pos) && pos + 1 in m.close then m.close[pos + 1] + 1 else pos + 1
  }

  /** Only the position itself may use a name where the walk jumps. */
  lemma UsedBetween(c: Code, m: Brackets, pos: nat, p: nat)
    requires WellNested(c, m) && m.Matched? && pos < p < NextAt(c, m, pos)
    ensures InParameters(c, m, p) && !UsedAt(c, m, p)
  {
    JumpedOver(c, m, pos, p);
    hide InParameters, WellNested, PhraseWord;
  }

  lemma UsesMore(c: Code, m: Brackets, pos: nat, next: nat, lams: seq<Lambda>, lams': seq<Lambda>, uses: seq<Use>,
                 uses': seq<Use>)
    requires m.Matched? && UsesBefore(c, m, pos, lams, uses) && LambdasGrow(lams, lams') && pos < next
    requires forall p :: pos < p < next ==> !UsedAt(c, m, p)
    requires if UsedAt(c, m, pos) then
               && |uses'| == |uses| + 1 && uses'[..|uses|] == uses
               && uses'[|uses|].pos == pos && UseFits(c, m, lams, uses'[|uses|])
             else uses' == uses
    ensures UsesBefore(c, m, next, lams', uses')
  {
    hide UsedAt, UseFits, LambdasGrow;
    forall i | 0 <= i < |uses'| ensures uses'[i].pos < next && UseFits(c, m, lams', uses'[i]) {
      assert i < |uses| ==> uses'[i] == uses[i];
      UseFitsMore(c, m, lams, lams', uses'[i]);
    }
    forall p: nat | p < next && UsedAt(c, m, p) ensures exists i :: 0 <= i < |uses'| && uses'[i].pos == p {
      if p < pos {
        var i :| 0 <= i < |uses| && uses[i].pos == p;
        assert uses'[i] == uses[i];
      } else {
        assert uses'[|uses|].pos == p;
      }
    }
  }

  // ---- the lambdas

  ghost predicate LambdaSays(c: Code, m: Brackets, pos: nat, lams: seq<Lambda>, l: Lambda)
    requires m.Matched?
  {
    LambdaShaped(c, m, lams, l) && l.locals == LocalNames(c, m, l.open, pos)
  }

  /** The lambdas recorded before `pos` are the braces there, in order, each with what it holds. */
  ghost predicate LambdasBefore(c: Code, m: Brackets, pos: nat, lams: seq<Lambda>)
    requires m.Matched?
  {
    && (forall k :: 0 <= k < |lams| ==> lams[k].open < pos && LambdaSays(c, m, pos, lams, lams[k]))
    && OpensAscend(lams)
    && (forall q: nat :: q < pos && BraceAt(c, q) && !InParameters(c, m, q) ==>
          exists k :: 0 <= k < |lams| && lams[k].open == q)
  }

  lemma LocalsMore(c: Code, m: Brackets, q: nat, pos: nat, next: nat)
    requires m.Matched? && pos < next && pos < |c| && forall p :: pos < p < next ==> !UsedAt(c, m, p)
    ensures LocalNames(c, m, q, next) ==
              LocalNames(c, m, q, pos) + if BecomesLocal(c, m, q, pos) then {c[pos].text} else {}
  {
    assert forall p: nat :: pos < p < next ==> !BecomesLocal(c, m, q, p) by {
      hide UsedAt, ItemAt, InBrace, IsRelative;
    }
    hide BecomesLocal;
  }

  lemma NoLocalsYet(c: Code, m: Brackets, q: nat, next: nat)
    requires m.Matched? && q < next && forall p :: q < p < next ==> !UsedAt(c, m, p)
    ensures LocalNames(c, m, q, next) == {}
  {
    forall p: nat | p < next && p < |c| ensures !BecomesLocal(c, m, q, p) {
      hide UsedAt, ItemAt, IsRelative;
    }
    hide BecomesLocal;
  }

  lemma ShapedMore(c: Code, m: Brackets, lams: seq<Lambda>, lams': seq<Lambda>, l: Lambda, l': Lambda)
    requires m.Matched? && LambdaShaped(c, m, lams, l) && LambdasGrow(lams, lams') && l' == l.(locals := l'.locals)
    ensures LambdaShaped(c, m, lams', l')
  {
    hide InParameters, ListedAt, ParametersOf, AppliedAt, LambdaFits, LambdasGrow;
    LambdaFitsMore(c, m, l.open, lams, lams', l.parent);
  }

  /** An old lambda after a round. */
  lemma LambdaMore(c: Code, m: Brackets, pos: nat, next: nat, lams: seq<Lambda>, lams': seq<Lambda>, l: Lambda)
    requires m.Matched? && pos < next && pos < |c| && LambdaSays(c, m, pos, lams, l) && LambdasGrow(lams, lams')
    requires forall p :: pos < p < next ==> !UsedAt(c, m, p)
    ensures LambdaSays(c, m, next, lams', Localised(c, l, pos, BecomesLocal(c, m, l.open, pos)))
  {
    hide *;
    LocalsMore(c, m, l.open, pos, next);
    LocalisedIs(c, l, pos, BecomesLocal(c, m, l.open, pos));
    LambdaSaysIs(c, m, pos, lams, l);
    var l' := Localised(c, l, pos, BecomesLocal(c, m, l.open, pos));
    ShapedMore(c, m, lams, lams', l, l');
    LambdaSaysIs(c, m, next, lams', l');
  }

  lemma LambdaSaysIs(c: Code, m: Brackets, pos: nat, lams: seq<Lambda>, l: Lambda)
    requires m.Matched?
    ensures LambdaSays(c, m, pos, lams, l) <==> LambdaShaped(c, m, lams, l) && l.locals == LocalNames(c, m, l.open, pos)
  {
    hide LambdaShaped, LocalNames;
  }

  lemma LambdasMore(c: Code, m: Brackets, pos: nat, next: nat, lams: seq<Lambda>, lams': seq<Lambda>)
    requires m.Matched? && LambdasBefore(c, m, pos, lams) && LambdasGrow(lams, lams') && pos < next && pos < |c|
    requires forall p :: pos < p < next ==> !UsedAt(c, m, p) && InParameters(c, m, p)
    requires if BraceAt(c, pos) then
               && |lams'| == |lams| + 1 && lams'[..|lams|] == lams
               && lams'[|lams|].open == pos && lams'[|lams|].locals == {} && LambdaShaped(c, m, lams, lams'[|lams|])
             else
               && |lams'| == |lams|
               && forall k :: 0 <= k < |lams'| ==>
                    lams'[k] == Localised(c, lams[k], pos, BecomesLocal(c, m, lams[k].open, pos))
    ensures LambdasBefore(c, m, next, lams')
  {
    hide LambdaSays, LambdaShaped, UsedAt, InParameters, BecomesLocal, LambdasGrow, BraceAt;
    forall k | 0 <= k < |lams'| ensures lams'[k].open < next && LambdaSays(c, m, next, lams', lams'[k]) {
      if k < |lams| {
        if BraceAt(c, pos) { NoneMadeAtBrace(c, m, lams[k].open, pos); assert lams'[k] == lams'[..|lams|][k]; }
        LambdaMore(c, m, pos, next, lams, lams', lams[k]);
      } else {
        NoLocalsYet(c, m, pos, next);
        ShapedMore(c, m, lams, lams', lams'[k], lams'[k]);
        LambdaSaysIs(c, m, next, lams', lams'[k]);
      }
    }
    forall q: nat | q < next && BraceAt(c, q) && !InParameters(c, m, q)
      ensures exists k :: 0 <= k < |lams'| && lams'[k].open == q {
      if q < pos {
        var k :| 0 <= k < |lams| && lams[k].open == q;
        assert lams'[k].open == q;
      } else {
        assert lams'[|lams|].open == q;
      }
    }
  }

  lemma NoneMadeAtBrace(c: Code, m: Brackets, q: nat, pos: nat)
    requires m.Matched? && BraceAt(c, pos)
    ensures !BecomesLocal(c, m, q, pos)
  {
    hide InParameters, PhraseWord, ItemAt, IsRelative, InBrace;
  }

  // ---- the lookups

  /** `@[` or `.[` on a symbol literal whose name is relative. */
  ghost predicate AppliesRelative(c: Code, m: Brackets, p: nat)
    requires m.Matched?
  {
    !InParameters(c, m, p) && (OpAt(c, p, "@") || OpAt(c, p, ".")) && TextAt(c, p + 1) == "[" && RelativeAt(c, p + 2)
  }

  /** What stands at `p` looks something up at run time, by this level. */
  ghost predicate LooksUpAt(c: Code, m: Brackets, p: nat, level: nat)
    requires m.Matched?
  {
    || (level == RELATIVE && ((UsedAt(c, m, p) && LooksRelative(c, p)) || AppliesRelative(c, m, p)))
    || (level == COMPUTED && p <= |c| && UsedAt(c, m, p) && LooksComputed(c, m, p))
  }

  ghost predicate LookupFits(c: Code, m: Brackets, lams: seq<Lambda>, p: nat, l: Lookup)
    requires m.Matched?
  {
    p < |c| && l.idx == c[p].idx && LooksUpAt(c, m, p, l.level) && LambdaFits(c, m, p, lams, l.lam)
  }

  ghost predicate LookedUpBefore(c: Code, m: Brackets, pos: nat, lams: seq<Lambda>, l: Lookup)
    requires m.Matched?
  {
    exists p: nat :: p < pos && LookupFits(c, m, lams, p, l)
  }

  /** The lookups recorded before `pos` are the ones there. */
  ghost predicate LookupsBefore(c: Code, m: Brackets, pos: nat, lams: seq<Lambda>, lookups: seq<Lookup>)
    requires m.Matched?
  {
    && (forall i :: 0 <= i < |lookups| ==> LookedUpBefore(c, m, pos, lams, lookups[i]))
    && (forall p: nat, level: nat :: p < pos && LooksUpAt(c, m, p, level) ==>
          exists i :: 0 <= i < |lookups| && lookups[i].level == level && LookupFits(c, m, lams, p, lookups[i]))
  }

  lemma LookupFitsMore(c: Code, m: Brackets, lams: seq<Lambda>, lams': seq<Lambda>, p: nat, l: Lookup)
    requires m.Matched? && LookupFits(c, m, lams, p, l) && LambdasGrow(lams, lams')
    ensures LookupFits(c, m, lams', p, l)
  {
    hide LooksUpAt, LambdaFits, LambdasGrow;
    LambdaFitsMore(c, m, p, lams, lams', l.lam);
  }

  /** The lookup a position makes, if any. */
  predicate Gained(lookups: seq<Lookup>, lookups': seq<Lookup>) {
    lookups' == lookups || (|lookups'| == |lookups| + 1 && lookups'[..|lookups|] == lookups)
  }

  ghost predicate LooksUpNothing(c: Code, m: Brackets, p: nat)
    requires m.Matched?
  {
    forall level: nat :: !LooksUpAt(c, m, p, level)
  }

  lemma LookupsMore(c: Code, m: Brackets, pos: nat, next: nat, lams: seq<Lambda>, lams': seq<Lambda>,
                    lookups: seq<Lookup>, lookups': seq<Lookup>)
    requires m.Matched? && LookupsBefore(c, m, pos, lams, lookups) && LambdasGrow(lams, lams') && pos < next
    requires forall p :: pos < p < next ==> LooksUpNothing(c, m, p)
    requires Gained(lookups, lookups')
    requires lookups' != lookups ==> LookupFits(c, m, lams, pos, lookups'[|lookups|])
    requires forall level: nat :: LooksUpAt(c, m, pos, level) ==>
               lookups' != lookups && lookups'[|lookups|].level == level
    ensures LookupsBefore(c, m, next, lams', lookups')
  {
    hide LooksUpAt, LookupFits, LambdasGrow;
    forall i | 0 <= i < |lookups'| ensures LookedUpBefore(c, m, next, lams', lookups'[i]) {
      if i < |lookups| {
        assert lookups'[i] == lookups[i] && LookedUpBefore(c, m, pos, lams, lookups[i]);
        var p: nat :| p < pos && LookupFits(c, m, lams, p, lookups[i]);
        LookupFitsMore(c, m, lams, lams', p, lookups'[i]);
      } else {
        LookupFitsMore(c, m, lams, lams', pos, lookups'[i]);
      }
    }
    forall p: nat, level: nat | p < next && LooksUpAt(c, m, p, level)
      ensures exists i :: 0 <= i < |lookups'| && lookups'[i].level == level && LookupFits(c, m, lams', p, lookups'[i]) {
      if p < pos {
        var i :| 0 <= i < |lookups| && lookups[i].level == level && LookupFits(c, m, lams, p, lookups[i]);
        assert lookups'[i] == lookups[i];
        LookupFitsMore(c, m, lams, lams', p, lookups'[i]);
      } else {
        assert pos < p ==> LooksUpNothing(c, m, p);
        LookupFitsMore(c, m, lams, lams', p, lookups'[|lookups|]);
      }
    }
  }

  lemma NoneBetween(c: Code, m: Brackets, p: nat)
    requires m.Matched? && InParameters(c, m, p) && !UsedAt(c, m, p)
    ensures LooksUpNothing(c, m, p)
  {
    NotAppliedInside(c, m, p);
    hide AppliesRelative, LooksRelative, LooksComputed, InParameters;
  }

  lemma NotAppliedInside(c: Code, m: Brackets, p: nat)
    requires m.Matched? && InParameters(c, m, p)
    ensures !AppliesRelative(c, m, p)
  {
    hide InParameters;
  }

  lemma LooksUpIs(c: Code, m: Brackets, p: nat)
    requires m.Matched? && p < |c|
    ensures forall level: nat :: LooksUpAt(c, m, p, level) <==>
              || (level == RELATIVE && ((UsedAt(c, m, p) && LooksRelative(c, p)) || AppliesRelative(c, m, p)))
              || (level == COMPUTED && UsedAt(c, m, p) && LooksComputed(c, m, p))
  {
    hide UsedAt, AppliesRelative, LooksRelative, LooksComputed;
  }

  lemma UsedNotApplied(c: Code, m: Brackets, p: nat)
    requires m.Matched? && UsedAt(c, m, p)
    ensures !AppliesRelative(c, m, p)
  {
    hide InParameters, PhraseWord;
  }

  lemma RecordLookups(c: Code, m: Brackets, pos: nat, st: Scan)
    requires m.Matched? && pos < |c| && st.stack != []
    ensures RecordName(c, m, pos, st).lookups ==
              if LookupLevel(c, m, pos) > 0
              then st.lookups + [Lookup(c[pos].idx, TopOf(st).lam, LookupLevel(c, m, pos))] else st.lookups
    ensures RecordName(c, m, pos, st).dotted == (st.dotted || RelativeDotted(c[pos].text))
  {
    hide RoleOf, LookupLevel, Called, InColumnPhrase, RelativeDotted, IsRelative;
  }

  lemma QuietLookups(c: Code, m: Brackets, pos: nat, st: Scan)
    requires Pairs(c, m) && pos < |c| && c[pos].kind != Name && st.stack != []
    ensures WalkStep(c, m, pos, st).0.dotted == st.dotted
    ensures WalkStep(c, m, pos, st).0.lookups ==
              if (OpAt(c, pos, "@") || OpAt(c, pos, ".")) && TextAt(c, pos + 1) == "[" && RelativeSymbol(c, pos + 2)
              then st.lookups + [Lookup(c[pos].idx, TopOf(st).lam, RELATIVE)] else st.lookups
  {
    hide Pairs, RelativeSymbol, LambdaAt, HasParams;
  }

  lemma AppliesIs(c: Code, m: Brackets, p: nat)
    requires m.Matched? && !InParameters(c, m, p)
    ensures AppliesRelative(c, m, p) <==>
              (OpAt(c, p, "@") || OpAt(c, p, ".")) && TextAt(c, p + 1) == "[" && RelativeSymbol(c, p + 2)
  {
    RelativeSaid(c, p + 2);
    hide InParameters, RelativeSymbol, RelativeAt;
  }

  lemma LookupFitsBy(c: Code, m: Brackets, lams: seq<Lambda>, p: nat, l: Lookup)
    requires m.Matched? && p < |c| && l.idx == c[p].idx && LooksUpAt(c, m, p, l.level)
    requires LambdaFits(c, m, p, lams, l.lam)
    ensures LookupFits(c, m, lams, p, l)
  {
  }

  lemma StepLooks(c: Code, m: Brackets, pos: nat, st: Scan)
    requires WellNested(c, m) && m.Matched? && pos < |c| && Good(c, m, pos, st)
    ensures Pairs(c, m) && st.stack != []
    ensures var st' := WalkStep(c, m, pos, st).0;
            && Gained(st.lookups, st'.lookups)
            && (st'.lookups != st.lookups ==> LookupFits(c, m, st.lams, pos, st'.lookups[|st.lookups|]))
            && (forall level: nat :: LooksUpAt(c, m, pos, level) ==>
                 st'.lookups != st.lookups && st'.lookups[|st.lookups|].level == level)
            && (st'.dotted <==> st.dotted || (UsedAt(c, m, pos) && RelativeDotted(c[pos].text)))
  {
    hide *;
    HasPairs(c, m);
    GoodIs(c, m, pos, st);
    TopSays(c, m, pos, st);
    StepIs(c, m, pos, st);
    LambdaSaid(c, m, pos, st);
    LooksUpIs(c, m, pos);
    var st', lookups := WalkStep(c, m, pos, st).0, st.lookups;
    if UsedAt(c, m, pos) {
      UsedIsName(c, m, pos);
      UsedNotApplied(c, m, pos);
      NameRecords(c, m, pos, st);
      RecordLookups(c, m, pos, st);
      LevelSaid(c, m, pos);
      LevelsApart(LookupLevel(c, m, pos));
      GainedIs(lookups, st'.lookups);
      if st'.lookups != lookups { LookupFitsBy(c, m, st.lams, pos, st'.lookups[|lookups|]); }
    } else if c[pos].kind == Name {
      NameRecords(c, m, pos, st);
      TopUses(st, TopOf(NameStep(c, m, pos, st)));
      NameNotApplied(c, m, pos);
      GainedIs(lookups, st'.lookups);
    } else {
      QuietLookups(c, m, pos, st);
      AppliesIs(c, m, pos);
      GainedIs(lookups, st'.lookups);
      if st'.lookups != lookups { LookupFitsBy(c, m, st.lams, pos, st'.lookups[|lookups|]); }
    }
  }

  lemma GainedIs(lookups: seq<Lookup>, lookups': seq<Lookup>)
    ensures lookups' == lookups || (exists l :: lookups' == lookups + [l]) ==> Gained(lookups, lookups')
  {
  }

  lemma LevelsApart(level: nat)
    requires level <= RELATIVE
    ensures level > 0 <==> level == RELATIVE || level == COMPUTED
  {
  }

  lemma NameNotApplied(c: Code, m: Brackets, p: nat)
    requires m.Matched? && p < |c| && c[p].kind == Name
    ensures !AppliesRelative(c, m, p)
  {
    hide InParameters;
  }

  // ---- the whole statement

  /** A dotted name that is not absolute is used at `p`. */
  ghost predicate DottedAt(c: Code, m: Brackets, p: nat)
    requires m.Matched?
  {
    p < |c| && UsedAt(c, m, p) && IsRelative(c[p].text) && '.' in c[p].text
  }

  ghost predicate DottedBefore(c: Code, m: Brackets, pos: nat)
    requires m.Matched?
  {
    exists p: nat :: p < pos && DottedAt(c, m, p)
  }

  /** All that is recorded before `pos` is what stands there. */
  ghost predicate Said(c: Code, m: Brackets, pos: nat, st: Scan)
    requires m.Matched?
  {
    && UsesBefore(c, m, pos, st.lams, st.uses) && LambdasBefore(c, m, pos, st.lams)
    && LookupsBefore(c, m, pos, st.lams, st.lookups) && (st.dotted <==> DottedBefore(c, m, pos))
  }

  lemma DottedMore(c: Code, m: Brackets, pos: nat, next: nat)
    requires m.Matched? && pos < next && forall p :: pos < p < next ==> !UsedAt(c, m, p)
    ensures DottedBefore(c, m, next) <==> DottedBefore(c, m, pos) || DottedAt(c, m, pos)
  {
    assert forall p: nat :: pos < p < next ==> !DottedAt(c, m, p) by { hide UsedAt, IsRelative; }
    hide DottedAt;
    if DottedBefore(c, m, pos) {
      var p: nat :| p < pos && DottedAt(c, m, p);
      assert p < next;
    }
  }

  lemma StepSaid(c: Code, m: Brackets, pos: nat, st: Scan)
    requires WellNested(c, m) && m.Matched? && pos < |c| && Good(c, m, pos, st) && Said(c, m, pos, st)
    ensures Pairs(c, m) && st.stack != []
    ensures Said(c, m, WalkStep(c, m, pos, st).1, WalkStep(c, m, pos, st).0)
  {
    hide *;
    HasPairs(c, m);
    GoodIs(c, m, pos, st);
    StepGood(c, m, pos, st);
    var (st', next) := WalkStep(c, m, pos, st);
    NextAtIs(c, m, pos);
    forall p | pos < p < next
      ensures !UsedAt(c, m, p) && InParameters(c, m, p) && LooksUpNothing(c, m, p) {
      UsedBetween(c, m, pos, p);
      NoneBetween(c, m, p);
    }
    SaidIs(c, m, pos, st);
    StepLambdas(c, m, pos, st);
    StepRecords(c, m, pos, st);
    UsesMore(c, m, pos, next, st.lams, st'.lams, st.uses, st'.uses);
    LambdasBeforeAscend(c, m, pos, st.lams);
    StepMakes(c, m, pos, st);
    LambdasMore(c, m, pos, next, st.lams, st'.lams);
    StepLooks(c, m, pos, st);
    LookupsMore(c, m, pos, next, st.lams, st'.lams, st.lookups, st'.lookups);
    DottedMore(c, m, pos, next);
    DottedAtIs(c, m, pos);
    SaidIs(c, m, next, st');
  }

  lemma NextAtIs(c: Code, m: Brackets, pos: nat)
    requires m.Matched?
    ensures NextAt(c, m, pos) == if ListedAt(c, pos) && pos + 1 in m.close then m.close[pos + 1] + 1 else pos + 1
  {
    hide ListedAt;
  }

  lemma LambdasBeforeAscend(c: Code, m: Brackets, pos: nat, lams: seq<Lambda>)
    requires m.Matched? && LambdasBefore(c, m, pos, lams)
    ensures OpensAscend(lams)
  {
    hide LambdaSays, InParameters, BraceAt;
  }

  lemma DottedAtIs(c: Code, m: Brackets, p: nat)
    requires m.Matched? && p < |c|
    ensures DottedAt(c, m, p) <==> UsedAt(c, m, p) && RelativeDotted(c[p].text)
  {
    hide UsedAt, IsRelative;
  }

  lemma SaidIs(c: Code, m: Brackets, pos: nat, st: Scan)
    requires m.Matched?
    ensures Said(c, m, pos, st) <==>
              && UsesBefore(c, m, pos, st.lams, st.uses) && LambdasBefore(c, m, pos, st.lams)
              && LookupsBefore(c, m, pos, st.lams, st.lookups) && (st.dotted <==> DottedBefore(c, m, pos))
  {
    hide UsesBefore, LambdasBefore, LookupsBefore, DottedBefore;
  }

  lemma {:induction false} WalkSaid(c: Code, m: Brackets, pos: nat, st: Scan)
    requires WellNested(c, m) && m.Matched? && pos <= |c| && Good(c, m, pos, st) && Said(c, m, pos, st)
    ensures Pairs(c, m) && st.stack != [] && Said(c, m, |c|, Walk(c, m, pos, st))
    decreases |c| - pos
  {
    hide *;
    HasPairs(c, m);
    GoodIs(c, m, pos, st);
    WalkIs(c, m, pos, st);
    if pos < |c| {
      StepGood(c, m, pos, st);
      StepSaid(c, m, pos, st);
      WalkSaid(c, m, WalkStep(c, m, pos, st).1, WalkStep(c, m, pos, st).0);
    }
  }

  lemma WalkIs(c: Code, m: Brackets, pos: nat, st: Scan)
    requires Pairs(c, m) && pos <= |c| && st.stack != []
    ensures Walk(c, m, pos, st) ==
              if pos == |c| then st else Walk(c, m, WalkStep(c, m, pos, st).1, WalkStep(c, m, pos, st).0)
  {
    hide Pairs, WalkStep;
  }

  lemma StartSays(c: Code, m: Brackets)
    requires WellNested(c, m) && m.Matched?
    ensures Good(c, m, 0, START) && Said(c, m, 0, START)
  {
    assert OpensAt(c, 0) == [];
    assert Told(c, m, 0, START) && MirrorsAt(c, m, 0, START);
    assert !InParameters(c, m, 0);
    hide WellNested, Told, MirrorsAt, UseFits, LambdaSays, LookupFits, LooksUpAt, DottedAt;
  }

  // ---- which statements are refused

  /** The brackets pair up: each bracket with one of its kind, and pairs apart or nested. */
  ghost predicate Balances(c: Code, m: Brackets) {
    Pairs(c, m) && forall p: nat, q: nat :: p in m.close && q in m.close ==> ApartOrInside(m, p, q)
  }

  ghost predicate Balanced(c: Code) { exists m :: Balances(c, m) }

  /** Nested pairs: each closer's opener is the last bracket then open. */
  lemma {:induction false} BalancedLast(c: Code, m: Brackets, pos: nat)
    requires Balances(c, m) && pos <= |c|
    ensures m.Matched? && LastClosed(c, pos, m.open) && Ascending(OpensAt(c, pos))
    ensures forall p: nat :: p in OpensAt(c, pos) <==> StillOpen(c, m, pos, p)
    decreases pos
  {
    hide *;
    BalancesIs(c, m);
    if pos == 0 {
      NoneOpenAtStart(c, m);
    } else {
      var q: nat := pos - 1;
      BalancedLast(c, m, q);
      NotBoth(c, q);
      OpensStep(c, q);
      var before, now := OpensAt(c, q), OpensAt(c, pos);
      if CloserAt(c, q) {
        ClosedLast(c, m, q);
        ClosesIs(c, q, m.open);
      }
      MoreLast(c, m, q);
      OpenIsBefore(c, m, q);
      NowAscends(before, now, q);
      forall p: nat ensures p in now <==> StillOpen(c, m, pos, p) {
        if CloserAt(c, q) {
          OpenPastCloser(c, m, q, p);
          WithoutLast(before, p);
        } else {
          OpenPastOther(c, m, q, p);
        }
      }
    }
  }

  lemma BalancesIs(c: Code, m: Brackets)
    requires Balances(c, m)
    ensures Pairs(c, m) && m.Matched?
  {
  }

  lemma NoneOpenAtStart(c: Code, m: Brackets)
    requires m.Matched?
    ensures OpensAt(c, 0) == [] && LastClosed(c, 0, m.open) && Ascending(OpensAt(c, 0))
    ensures forall p: nat :: !StillOpen(c, m, 0, p)
  {
    assert OpensAt(c, 0) == [];
  }

  /** A closer's opener is the last of those open there. */
  lemma ClosedLast(c: Code, m: Brackets, q: nat)
    requires Balances(c, m) && m.Matched? && Pairs(c, m) && q < |c| && CloserAt(c, q) && Ascending(OpensAt(c, q))
    requires forall p: nat :: p in OpensAt(c, q) <==> StillOpen(c, m, q, p)
    ensures ClosesLast(c, q, m.open)
  {
    assert q in m.open by { hide OpenerAt, CloserAt; }
    OpenedBy(c, m, q);
    var o := m.open[q];
    hide OpensAt, OpenerAt, CloserAt, Pairs;
    var opens := OpensAt(c, q);
    assert StillOpen(c, m, q, o);
    var last := opens[|opens| - 1];
    assert last in opens && o <= last by { var i :| 0 <= i < |opens| && opens[i] == o; }
    PairOf(c, m, last);
    assert ApartOrInside(m, o, last);
  }

  lemma ClosesIs(c: Code, q: nat, open: map<nat, nat>)
    requires q <= |c| && ClosesLast(c, q, open)
    ensures q in open && OpensAt(c, q) != [] && open[q] == OpensAt(c, q)[|OpensAt(c, q)| - 1]
  {
    hide OpensAt;
  }

  lemma MoreLast(c: Code, m: Brackets, q: nat)
    requires m.Matched? && q < |c| && LastClosed(c, q, m.open) && (CloserAt(c, q) ==> ClosesLast(c, q, m.open))
    ensures LastClosed(c, q + 1, m.open)
  {
    hide ClosesLast, CloserAt;
  }

  /** Where brackets can be paired up, matching them finds the pairs. */
  lemma {:induction false} FindsPairs(c: Code, m: Brackets, pos: nat, stack: seq<nat>, close: map<nat, nat>,
                                      open: map<nat, nat>)
    requires Balances(c, m) && pos <= |c| && stack == OpensAt(c, pos)
    requires forall i :: 0 <= i < |stack| ==> stack[i] < |c|
    ensures MatchFrom(c, pos, stack, close, open).Matched?
    decreases |c| - pos
  {
    hide *;
    BalancesIs(c, m);
    BalancedLast(c, m, pos);
    NotBoth(c, pos);
    if pos == |c| {
      NoneLeftOpen(c, m);
      MatchFromEnd(c, close, open);
    } else {
      OpensStep(c, pos);
      MatchFromStep(c, pos, stack, close, open);
      if OpenerAt(c, pos) {
        FindsPairs(c, m, pos + 1, stack + [pos], close, open);
      } else if CloserAt(c, pos) {
        BalancedLast(c, m, pos + 1);
        LastMatches(c, m, pos);
        var o := stack[|stack| - 1];
        FindsPairs(c, m, pos + 1, stack[..|stack| - 1], close[o := pos], open[pos := o]);
      } else {
        FindsPairs(c, m, pos + 1, stack, close, open);
      }
    }
  }

  lemma MatchFromEnd(c: Code, close: map<nat, nat>, open: map<nat, nat>)
    ensures MatchFrom(c, |c|, [], close, open).Matched?
  {
  }

  lemma MatchFromStep(c: Code, pos: nat, stack: seq<nat>, close: map<nat, nat>, open: map<nat, nat>)
    requires pos < |c| && forall i :: 0 <= i < |stack| ==> stack[i] < |c|
    ensures OpenerAt(c, pos) ==>
              MatchFrom(c, pos, stack, close, open) == MatchFrom(c, pos + 1, stack + [pos], close, open)
    ensures CloserAt(c, pos) && stack != [] && CloserOf(c[stack[|stack| - 1]].text) == c[pos].text ==>
              var o := stack[|stack| - 1];
              MatchFrom(c, pos, stack, close, open) ==
              MatchFrom(c, pos + 1, stack[..|stack| - 1], close[o := pos], open[pos := o])
    ensures !OpenerAt(c, pos) && !CloserAt(c, pos) ==>
              MatchFrom(c, pos, stack, close, open) == MatchFrom(c, pos + 1, stack, close, open)
  {
    NotBoth(c, pos);
    hide OpenerAt, CloserAt, CloserOf;
  }

  lemma LastMatches(c: Code, m: Brackets, q: nat)
    requires Pairs(c, m) && m.Matched? && q < |c| && CloserAt(c, q) && LastClosed(c, q + 1, m.open)
    ensures var opens := OpensAt(c, q);
            opens != [] && opens[|opens| - 1] < |c| && CloserOf(c[opens[|opens| - 1]].text) == c[q].text
  {
    assert ClosesLast(c, q, m.open);
    hide OpensAt;
  }

  lemma NoneLeftOpen(c: Code, m: Brackets)
    requires Pairs(c, m) && m.Matched? && forall p: nat :: p in OpensAt(c, |c|) <==> StillOpen(c, m, |c|, p)
    ensures OpensAt(c, |c|) == []
  {
    forall p: nat ensures p !in OpensAt(c, |c|) {
      hide OpensAt, CloserAt, OpenerAt;
      if p in m.close { PairOf(c, m, p); }
    }
    hide OpensAt, CloserAt, OpenerAt;
    NoneIn(OpensAt(c, |c|));
  }

  lemma NoneIn(s: seq<nat>)
    requires forall p: nat :: p !in s
    ensures s == []
  {
    if s != [] { NotFirst(s); }
  }

  lemma NotFirst(s: seq<nat>)
    requires s != []
    ensures s[0] in s
  {
  }

  /** BRACKETS. They match exactly when they can be paired up. */
  lemma MatchedIff(c: Code)
    ensures MatchAll(c).Matched? <==> Balanced(c)
  {
    hide *;
    if MatchAll(c).Matched? {
      MatchedIsNested(c);
      HasPairs(c, MatchAll(c));
      BalancedBy(c, MatchAll(c));
    }
    if Balanced(c) {
      var m := Balancing(c);
      OpensNothing(c);
      FindsPairs(c, m, 0, [], map[], map[]);
      MatchAllIs(c);
    }
  }

  lemma BalancedBy(c: Code, m: Brackets)
    requires Pairs(c, m) && m.Matched? && forall p, q :: p in m.close && q in m.close ==> ApartOrInside(m, p, q)
    ensures Balanced(c)
  {
    hide Pairs, ApartOrInside;
    assert Balances(c, m);
  }

  lemma Balancing(c: Code) returns (m: Brackets)
    requires Balanced(c)
    ensures Balances(c, m)
  {
    m :| Balances(c, m);
  }

  lemma OpensNothing(c: Code)
    ensures OpensAt(c, 0) == []
  {
  }

  lemma MatchAllIs(c: Code)
    ensures MatchAll(c) == MatchFrom(c, 0, [], map[], map[])
  {
    hide MatchFrom, Pairs;
  }

  /** A bracket's partner is the same however the brackets are paired up. */
  lemma OnePairing(c: Code, m: Brackets, n: Brackets)
    requires Balances(c, m) && Balances(c, n)
    ensures m == n
  {
    hide *;
    BalancesIs(c, m);
    BalancesIs(c, n);
    BalancedLast(c, m, |c|);
    BalancedLast(c, n, |c|);
    forall q: nat ensures q in m.open <==> q in n.open
                  ensures q in m.open && q in n.open ==> m.open[q] == n.open[q] {
      OpenIffCloser(c, m, q);
      OpenIffCloser(c, n, q);
      if q < |c| && CloserAt(c, q) {
        LastOfOpen(c, q, m.open);
        LastOfOpen(c, q, n.open);
      }
    }
    assert m.open == n.open;
    forall p: nat ensures p in m.close <==> p in n.close
                  ensures p in m.close && p in n.close ==> m.close[p] == n.close[p] {
      CloseByOpen(c, m, n, p);
      CloseByOpen(c, n, m, p);
    }
    assert m.close == n.close;
    MatchedBy(m, n);
  }

  lemma OpenIffCloser(c: Code, m: Brackets, q: nat)
    requires Pairs(c, m)
    ensures m.Matched? && (q in m.open <==> CloserAt(c, q)) && (CloserAt(c, q) ==> q < |c|)
  {
    if q in m.open { assert IsPair(c, m.open[q], q); }
    hide OpenerAt, CloserOf;
  }

  lemma LastOfOpen(c: Code, q: nat, open: map<nat, nat>)
    requires q < |c| && CloserAt(c, q) && LastClosed(c, |c|, open)
    ensures q in open && OpensAt(c, q) != [] && open[q] == OpensAt(c, q)[|OpensAt(c, q)| - 1]
  {
    assert ClosesLast(c, q, open);
    hide OpensAt, CloserAt;
  }

  lemma CloseByOpen(c: Code, m: Brackets, n: Brackets, p: nat)
    requires Pairs(c, m) && Pairs(c, n) && m.Matched? && n.Matched? && m.open == n.open
    ensures p in m.close ==> p in n.close && n.close[p] == m.close[p]
  {
    hide OpenerAt, CloserAt, CloserOf;
    if p in m.close {
      PairOf(c, m, p);
      OpenedBy(c, n, m.close[p]);
    }
  }

  lemma MatchedBy(m: Brackets, n: Brackets)
    requires m.Matched? && n.Matched? && m.close == n.close && m.open == n.open
    ensures m == n
  {
  }

  // ---- what a parsed statement says

  /** The whole statement is `name:{...}`, a `;` after it or not. */
  predicate DefinedAs(c: Code, m: Brackets, name: string)
    requires m.Matched?
  {
    && HasKind(c, 0, Name) && c[0].text == name && TextAt(c, 1) == ":" && BraceAt(c, 2) && 2 in m.close
    && (m.close[2] == |c| - 1 || (m.close[2] == |c| - 2 && c[|c| - 1].text == ";"))
  }

  lemma DefinitionSaid(c: Code, m: Brackets, name: string)
    requires Pairs(c, m) && m.Matched?
    ensures DefinitionOf(c, m) == Some(name) <==> DefinedAs(c, m, name)
  {
    if 2 in m.close { PairOf(c, m, 2); }
    hide Pairs;
  }

  /** THE SCAN. A statement whose brackets pair up is refused exactly when it uses
      a dotted name that is not absolute; one whose brackets do not is refused.
      Parsed, it holds the uses, lambdas and lookups its tokens say and no other. */
  lemma ParseSays(c: Code, m: Brackets)
    requires Balances(c, m)
    ensures m.Matched? && (ParseCode(c).Refused? <==> DottedBefore(c, m, |c|))
    ensures ParseCode(c).Parsed? ==>
              && UsesBefore(c, m, |c|, ParseCode(c).lams, ParseCode(c).uses)
              && LambdasBefore(c, m, |c|, ParseCode(c).lams)
              && LookupsBefore(c, m, |c|, ParseCode(c).lams, ParseCode(c).lookups)
              && forall name :: ParseCode(c).definition == Some(name) <==> DefinedAs(c, m, name)
  {
    hide *;
    BalancesIs(c, m);
    BalancedIs(c, m);
    MatchedIff(c);
    MatchedIsNested(c);
    HasPairs(c, MatchAll(c));
    BalancesBy(c, MatchAll(c));
    OnePairing(c, m, MatchAll(c));
    StartSays(c, m);
    WalkSaid(c, m, 0, START);
    SaidIs(c, m, |c|, Walk(c, m, 0, START));
    ParseCodeIs(c);
    forall name ensures DefinitionOf(c, m) == Some(name) <==> DefinedAs(c, m, name) { DefinitionSaid(c, m, name); }
  }

  lemma BalancedIs(c: Code, m: Brackets)
    requires Balances(c, m)
    ensures Balanced(c)
  {
    hide Balances;
  }

  lemma BalancesBy(c: Code, m: Brackets)
    requires Pairs(c, m) && m.Matched? && forall p, q :: p in m.close && q in m.close ==> ApartOrInside(m, p, q)
    ensures Balances(c, m)
  {
    hide Pairs, ApartOrInside;
  }

  lemma ParseCodeIs(c: Code)
    ensures MatchAll(c).Unmatched? ==> ParseCode(c).Refused?
    ensures MatchAll(c).Matched? ==>
              Pairs(c, MatchAll(c)) && START.stack != [] &&
              var st := Walk(c, MatchAll(c), 0, START);
              ParseCode(c) == if st.dotted then Refused
                              else Parsed(st.uses, st.lookups, st.lams, DefinitionOf(c, MatchAll(c)))
  {
    hide Pairs, Walk, DefinitionOf;
  }

  /** A statement whose brackets do not pair up is refused. */
  lemma UnbalancedRefused(c: Code)
    requires !Balanced(c)
    ensures ParseCode(c).Refused?
  {
    hide *;
    MatchedIff(c);
    ParseCodeIs(c);
  }

  /** COLUMN PHRASES. A use is in a column phrase exactly when some level around it is
      in one, no further out than the innermost lambda's body: a bracket opened in a
      phrase keeps its uses there, and a lambda's brace ends the phrase. */
  lemma ColumnUses(c: Code, m: Brackets, i: nat)
    requires Balances(c, m) && ParseCode(c).Parsed? && i < |ParseCode(c).uses|
    ensures m.Matched? && ParseCode(c).uses[i].pos < |c|
    ensures var u := ParseCode(c).uses[i];
            && (u.columnCtx <==> exists e: nat :: Around(c, m, e, u.pos) && OfColumns(PhraseAt(c, m, e)))
            && (forall p: nat :: Around(c, m, p, u.pos) && InPhrase(c, m, p) ==> u.columnCtx)
            && (forall q: nat :: InBrace(c, m, u.pos, q) ==>
                 (u.columnCtx <==> exists e: nat :: q < e && Around(c, m, e, u.pos) && OfColumns(PhraseAt(c, m, e))))
  {
    hide *;
    ParseSays(c, m);
    var u := ParseCode(c).uses[i];
    UseOf(c, m, ParseCode(c).lams, ParseCode(c).uses, i);
    InPhraseIs(c, m, u.pos);
    forall p: nat | Around(c, m, p, u.pos) && InPhrase(c, m, p) ensures u.columnCtx {
      AroundBefore(c, m, p, u.pos);
      var e := PhraseLevel(c, m, p);
      AroundThrough(c, m, e, p, u.pos);
    }
    forall e: nat | Around(c, m, e, u.pos) ensures e <= |c| { AroundBefore(c, m, e, u.pos); }
    forall q: nat | InBrace(c, m, u.pos, q)
      ensures u.columnCtx <==> exists e: nat :: q < e && Around(c, m, e, u.pos) && OfColumns(PhraseAt(c, m, e)) {
      if u.columnCtx {
        var e := PhraseLevel(c, m, u.pos);
        InsideBrace(c, m, u.pos, q, e);
      }
    }
  }

  lemma UseOf(c: Code, m: Brackets, lams: seq<Lambda>, uses: seq<Use>, i: nat)
    requires m.Matched? && UsesBefore(c, m, |c|, lams, uses) && i < |uses|
    ensures uses[i].pos < |c| && (uses[i].columnCtx <==> InPhrase(c, m, uses[i].pos))
  {
    assert UseFits(c, m, lams, uses[i]);
    hide UsedAt, RoleFits, InPhrase, AppliedAt, LambdaFits;
  }

  lemma InPhraseIs(c: Code, m: Brackets, pos: nat)
    requires m.Matched?
    ensures InPhrase(c, m, pos) <==> exists e: nat :: Around(c, m, e, pos) && OfColumns(PhraseAt(c, m, e))
  {
    hide StillOpen, PhraseAt, OfColumns;
  }

  lemma AroundBefore(c: Code, m: Brackets, p: nat, pos: nat)
    requires m.Matched? && Around(c, m, p, pos)
    ensures p <= pos <= |c|
  {
    hide StillOpen;
  }

  /** A level around a position on a level around another is around that one too. */
  lemma AroundThrough(c: Code, m: Brackets, e: nat, p: nat, pos: nat)
    requires Balances(c, m) && m.Matched? && Around(c, m, e, p) && Around(c, m, p, pos)
    ensures Around(c, m, e, pos)
  {
    BalancesIs(c, m);
    hide Pairs;
    if p < pos {
      PairOf(c, m, p);
      if e < p {
        PairOf(c, m, e);
        assert ApartOrInside(m, e, p);
        forall q: nat | e <= q && StillOpen(c, m, pos, q) ensures c[q].text != "{" {
          if q < p { assert StillOpen(c, m, p, q); }
        }
      }
    }
  }

  lemma InsideBrace(c: Code, m: Brackets, pos: nat, q: nat, e: nat)
    requires m.Matched? && pos <= |c| && InBrace(c, m, pos, q) && Around(c, m, e, pos)
    ensures q < e
  {
  }

  // ---- what runs as its statement runs

  /** A bracket open where another that is open was opened is open too, and the other way about. */
  lemma OpenThrough(c: Code, m: Brackets, pos: nat, p: nat, q: nat)
    requires Balances(c, m) && m.Matched? && StillOpen(c, m, pos, p)
    ensures StillOpen(c, m, p, q) ==> StillOpen(c, m, pos, q)
    ensures StillOpen(c, m, pos, q) && q < p ==> StillOpen(c, m, p, q)
  {
    BalancesIs(c, m);
    PairOf(c, m, p);
    if q in m.close {
      PairOf(c, m, q);
      assert ApartOrInside(m, q, p);
    }
    hide OpenerAt, Pairs;
  }

  lemma ShapeOf(c: Code, m: Brackets, lams: seq<Lambda>, k: nat)
    requires m.Matched? && LambdasBefore(c, m, |c|, lams) && k < |lams|
    ensures lams[k].open < |c| && c[lams[k].open].text == "{" && LambdaFits(c, m, lams[k].open, lams, lams[k].parent)
    ensures OpensAscend(lams)
  {
    hide InParameters, ParametersOf, LambdaFits, LocalNames, ListedAt, AppliedAt;
    assert LambdaSays(c, m, |c|, lams, lams[k]);
  }

  /** INLINE. What stands at `pos` runs as its statement runs exactly when every lambda
      around it is applied where it is written. */
  lemma {:induction false} InlineIff(c: Code, m: Brackets, pos: nat, lams: seq<Lambda>, lam: Option<nat>)
    requires Balances(c, m) && m.Matched? && pos <= |c| && LambdasBefore(c, m, |c|, lams)
    requires LambdaFits(c, m, pos, lams, lam)
    ensures (lam.Some? ==> RunsInline(lams, lam.value)) <==>
              forall j :: 0 <= j < |lams| && StillOpen(c, m, pos, lams[j].open) ==> lams[j].applied
    decreases pos
  {
    hide Balances, StillOpen, LambdasBefore;
    forall j | 0 <= j < |lams| ensures lams[j].open < |c| && c[lams[j].open].text == "{" { ShapeOf(c, m, lams, j); }
    match lam {
      case None =>
      case Some(k) =>
        var q := lams[k].open;
        ShapeOf(c, m, lams, k);
        OpenBefore(c, m, pos, q);
        InlineIff(c, m, q, lams, lams[k].parent);
        ParentBefore(c, m, lams, k);
        forall j | 0 <= j < |lams|
          ensures StillOpen(c, m, pos, lams[j].open) <==> j == k || StillOpen(c, m, q, lams[j].open) {
          OpenThrough(c, m, pos, q, lams[j].open);
        }
    }
  }

  lemma OpenBefore(c: Code, m: Brackets, pos: nat, q: nat)
    requires m.Matched? && StillOpen(c, m, pos, q)
    ensures q < pos
  {
  }

  lemma ParentBefore(c: Code, m: Brackets, lams: seq<Lambda>, k: nat)
    requires m.Matched? && k < |lams| && lams[k].open <= |c| && OpensAscend(lams)
    requires LambdaFits(c, m, lams[k].open, lams, lams[k].parent)
    ensures lams[k].parent.Some? ==> lams[k].parent.value < k
  {
    if lams[k].parent.Some? {
      var p := lams[k].parent.value;
      assert lams[p].open < lams[k].open;
    }
  }

  /** LOCALS. A name is local to a lambda exactly when its list holds it, when the lambda
      assigns it, or when it has no list and the name is `x`, `y` or `z`. */
  lemma LocalsSay(c: Code, m: Brackets, lams: seq<Lambda>, k: nat, name: string)
    requires m.Matched? && LambdasBefore(c, m, |c|, lams) && k < |lams|
    ensures lams[k].IsLocal(name) <==>
              || (exists p: nat :: Parameter(c, m, lams[k].open, p, name))
              || (exists p: nat :: p < |c| && BecomesLocal(c, m, lams[k].open, p) && c[p].text == name)
              || (!ListedAt(c, lams[k].open) && name in {"x", "y", "z"})
  {
    hide InParameters, LambdaFits, ListedAt, AppliedAt, BecomesLocal;
    assert LambdaSays(c, m, |c|, lams, lams[k]);
    var q := lams[k].open;
    if name in lams[k].params {
      var p: nat :| q < p < |c| && ListedAt(c, q) && q + 1 in m.close && p <= m.close[q + 1] && c[p].kind == Name
                    && c[p].text == name;
      assert Parameter(c, m, q, p, name);
    }
  }

  /** The name stands in the brace's parameter list at `p`. */
  predicate Parameter(c: Code, m: Brackets, q: nat, p: nat, name: string)
    requires m.Matched?
  {
    ListedAt(c, q) && q + 1 in m.close && q < p <= m.close[q + 1] && HasKind(c, p, Name) && c[p].text == name
  }
}
