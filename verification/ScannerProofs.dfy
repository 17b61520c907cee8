/** The scanner's frame stack mirrors the open brackets, so each use belongs to the innermost lambda around it. */
module ScannerProofs {
  import opened Options
  import opened Lexer
  import opened QWords
  import opened Scanner
  import opened Renaming
  import opened Flatten

  /** The brackets open before `pos`, outermost first. */
  function OpensAt(c: Code, pos: nat): seq<nat>
    requires pos <= |c|
  {
    if pos == 0 then []
    else
      var before := OpensAt(c, pos - 1);
      if OpenerAt(c, pos - 1) then before + [pos - 1]
      else if CloserAt(c, pos - 1) && before != [] then before[..|before| - 1]
      else before
  }

  /** Each closer before `pos` closes the last bracket then open. */
  ghost predicate LastClosed(c: Code, pos: nat, open: map<nat, nat>)
    requires pos <= |c|
  {
    forall q: nat :: q < pos && CloserAt(c, q) ==> ClosesLast(c, q, open)
  }

  ghost predicate ClosesLast(c: Code, q: nat, open: map<nat, nat>)
    requires q <= |c|
  {
    q in open && OpensAt(c, q) != [] && open[q] == OpensAt(c, q)[|OpensAt(c, q)| - 1]
  }

  lemma LastClosedMore(c: Code, pos: nat, open: map<nat, nat>, o: nat)
    requires pos < |c| && LastClosed(c, pos, open) && OpensAt(c, pos) != []
    requires o == OpensAt(c, pos)[|OpensAt(c, pos)| - 1]
    ensures LastClosed(c, pos + 1, open[pos := o])
  {
    hide OpensAt, CloserAt;
  }

  lemma {:induction false} MatchesLast(c: Code, pos: nat, stack: seq<nat>, close: map<nat, nat>, open: map<nat, nat>)
    requires pos <= |c| && stack == OpensAt(c, pos) && LastClosed(c, pos, open)
    requires forall i :: 0 <= i < |stack| ==> stack[i] < |c|
    ensures var m := MatchFrom(c, pos, stack, close, open);
            m.Matched? ==> LastClosed(c, |c|, m.open) && OpensAt(c, |c|) == []
    decreases |c| - pos
  {
    NotBoth(c, pos);
    hide OpenerAt, CloserAt, CloserOf, ClosesLast;
    if pos < |c| {
      if OpenerAt(c, pos) {
        MatchesLast(c, pos + 1, stack + [pos], close, open);
      } else if CloserAt(c, pos) {
        if stack != [] && CloserOf(c[stack[|stack| - 1]].text) == c[pos].text {
          var o := stack[|stack| - 1];
          LastClosedMore(c, pos, open, o);
          hide LastClosed;
          MatchesLast(c, pos + 1, stack[..|stack| - 1], close[o := pos], open[pos := o]);
        }
      } else {
        MatchesLast(c, pos + 1, stack, close, open);
      }
    }
  }

  lemma NotBoth(c: Code, pos: nat)
    ensures !(OpenerAt(c, pos) && CloserAt(c, pos))
  {
  }

  ghost predicate WellNested(c: Code, m: Brackets) {
    Pairs(c, m) && LastClosed(c, |c|, m.open) && OpensAt(c, |c|) == []
  }

  ghost predicate StillOpen(c: Code, m: Brackets, pos: nat, p: nat)
    requires m.Matched?
  {
    p < pos && OpenerAt(c, p) && p in m.close && m.close[p] >= pos
  }

  /** Passing a closer, the bracket it closes is the one that no longer is open. */
  lemma OpenPastCloser(c: Code, m: Brackets, pos: nat, p: nat)
    requires Pairs(c, m) && CloserAt(c, pos)
    ensures StillOpen(c, m, pos + 1, p) <==> StillOpen(c, m, pos, p) && p != m.open[pos]
  {
    NotBoth(c, pos);
    hide OpenerAt, CloserAt, CloserOf;
  }

  lemma OpenPastOther(c: Code, m: Brackets, pos: nat, p: nat)
    requires Pairs(c, m) && !CloserAt(c, pos)
    ensures StillOpen(c, m, pos + 1, p) <==> StillOpen(c, m, pos, p) || (p == pos && OpenerAt(c, pos))
  {
    hide OpenerAt, CloserAt, CloserOf;
  }

  ghost predicate Ascending(s: seq<nat>) { forall i, j :: 0 <= i < j < |s| ==> s[i] < s[j] }

  /** Open at `pos` are exactly the brackets before it whose partner is not. */
  lemma {:induction false} OpenExactly(c: Code, m: Brackets, pos: nat)
    requires WellNested(c, m) && pos <= |c|
    ensures Ascending(OpensAt(c, pos))
    ensures forall p: nat :: p in OpensAt(c, pos) <==> StillOpen(c, m, pos, p)
    decreases pos
  {
    if pos > 0 {
      var q := pos - 1;
      assert Pairs(c, m) && (CloserAt(c, q) ==> ClosesLast(c, q, m.open));
      NotBoth(c, q);
      OpensStep(c, q);
      hide *;
      OpenExactly(c, m, q);
      var before, now := OpensAt(c, q), OpensAt(c, pos);
      if OpenerAt(c, q) { OpenIsBefore(c, m, q); }
      NowAscends(before, now, q);
      forall p: nat ensures p in now <==> StillOpen(c, m, pos, p) {
        if CloserAt(c, q) {
          OpenPastCloser(c, m, q, p);
          ClosedIs(c, m, q);
          WithoutLast(before, p);
        } else {
          OpenPastOther(c, m, q, p);
        }
      }
    }
  }

  lemma OpensStep(c: Code, q: nat)
    requires q < |c|
    ensures var before, now := OpensAt(c, q), OpensAt(c, q + 1);
            now == if OpenerAt(c, q) then before + [q]
                   else if CloserAt(c, q) && before != [] then before[..|before| - 1] else before
  {
    hide OpenerAt, CloserAt;
  }

  lemma ClosedIs(c: Code, m: Brackets, q: nat)
    requires WellNested(c, m) && q < |c| && CloserAt(c, q)
    ensures m.Matched? && q in m.open && OpensAt(c, q) != [] && m.open[q] == OpensAt(c, q)[|OpensAt(c, q)| - 1]
  {
    assert ClosesLast(c, q, m.open);
    hide OpensAt, CloserAt, Pairs;
  }

  lemma NowAscends(before: seq<nat>, now: seq<nat>, q: nat)
    requires Ascending(before)
    requires || now == before || (before != [] && now == before[..|before| - 1])
             || (now == before + [q] && forall i :: 0 <= i < |before| ==> before[i] < q)
    ensures Ascending(now)
  {
  }

  lemma WithoutLast(s: seq<nat>, p: nat)
    requires Ascending(s) && s != []
    ensures p in s[..|s| - 1] <==> p in s && p != s[|s| - 1]
  {
    if p in s && p != s[|s| - 1] {
      var i :| 0 <= i < |s| && s[i] == p;
      assert s[..|s| - 1][i] == p;
    }
  }

  lemma OpenIsBefore(c: Code, m: Brackets, pos: nat)
    requires m.Matched? && pos <= |c| && forall p: nat :: p in OpensAt(c, pos) <==> StillOpen(c, m, pos, p)
    ensures forall i :: 0 <= i < |OpensAt(c, pos)| ==> OpensAt(c, pos)[i] < pos
  {
    hide OpensAt, OpenerAt;
    forall i | 0 <= i < |OpensAt(c, pos)| ensures OpensAt(c, pos)[i] < pos {
      assert OpensAt(c, pos)[i] in OpensAt(c, pos);
    }
  }

  /** Two pairs: one closes before the other opens, or one lies inside the other. */
  predicate ApartOrInside(m: Brackets, p: nat, q: nat)
    requires m.Matched? && p in m.close && q in m.close
  {
    p < q ==> m.close[p] < q || m.close[q] < m.close[p]
  }

  lemma TwoPairs(c: Code, m: Brackets, p: nat, q: nat)
    requires WellNested(c, m) && p in m.close && q in m.close
    ensures ApartOrInside(m, p, q)
  {
    var e := m.close[p];
    PairOf(c, m, p);
    PairOf(c, m, q);
    NotBoth(c, q);
    if p < q < e {
      OpenExactly(c, m, e);
      assert StillOpen(c, m, e, p) && ClosesLast(c, e, m.open);
      hide OpensAt, OpenerAt, CloserAt, WellNested;
      var opens := OpensAt(c, e);
      assert opens[|opens| - 1] == p;
      assert !StillOpen(c, m, e, q);
    }
  }

  lemma PairOf(c: Code, m: Brackets, p: nat)
    requires Pairs(c, m) && p in m.close
    ensures p < m.close[p] < |c| && OpenerAt(c, p) && CloserAt(c, m.close[p]) && m.close[p] in m.open
    ensures m.open[m.close[p]] == p
  {
    hide OpenerAt, CloserAt, CloserOf;
  }

  /** Balanced code is well nested: each closer closes the bracket opened last,
      and of two pairs one lies inside the other or they lie apart. */
  lemma {:induction false} MatchedIsNested(c: Code)
    requires MatchAll(c).Matched?
    ensures var m := MatchAll(c);
            WellNested(c, m) && forall p, q :: p in m.close && q in m.close ==> ApartOrInside(m, p, q)
  {
    var m := MatchAll(c);
    hide Pairs, ApartOrInside;
    MatchesLast(c, 0, [], map[], map[]);
    forall p, q | p in m.close && q in m.close ensures ApartOrInside(m, p, q) { TwoPairs(c, m, p, q); }
  }

  /** The brackets open around one that is open are those open where it stands. */
  lemma {:induction false} OpensAround(c: Code, pos: nat, i: nat)
    requires pos <= |c| && i < |OpensAt(c, pos)|
    ensures OpensAt(c, pos)[i] < pos && OpensAt(c, pos)[..i] == OpensAt(c, OpensAt(c, pos)[i])
    decreases pos
  {
    hide OpenerAt, CloserAt;
    var before := OpensAt(c, pos - 1);
    if i < |before| {
      OpensAround(c, pos - 1, i);
      assert OpensAt(c, pos)[..i] == before[..i];
    } else {
      assert OpensAt(c, pos)[..i] == before;
    }
  }

  /** Past a bracket's partner, what was open before it is open again. */
  lemma OpensPast(c: Code, m: Brackets, p: nat)
    requires WellNested(c, m) && OpenerAt(c, p)
    ensures m.close[p] < |c| && OpensAt(c, m.close[p] + 1) == OpensAt(c, p)
  {
    var q := m.close[p];
    NotBoth(c, q);
    hide OpenerAt, CloserAt;
    var opens := OpensAt(c, q);
    assert opens[|opens| - 1] == p;
    OpensAround(c, q, |opens| - 1);
  }

  // ---- the walk

  /** The frame on top of `below` for the bracket at `p`. */
  ghost predicate FrameFits(c: Code, m: Brackets, lams: seq<Lambda>, below: Frame, f: Frame, p: nat)
    requires m.Matched?
  {
    p < |c| &&
    match c[p].text
    case "{" => f.kind == InLambda && f.lam.Some? && f.lam.value < |lams| && lams[f.lam.value].open == p
                && p in m.close && lams[f.lam.value].close == m.close[p]
    case "(" => (f.kind == Paren || f.kind == Table) && f.lam == below.lam
    case _ => c[p].text == "[" && (f.kind == Bracket || f.kind == TableKey) && f.lam == below.lam
  }

  /** The stack is the top frame and one frame for each open bracket. */
  ghost predicate Mirrors(c: Code, m: Brackets, lams: seq<Lambda>, stack: seq<Frame>, opens: seq<nat>)
    requires m.Matched?
  {
    && |stack| == |opens| + 1 && stack[0].kind == Top && stack[0].lam == None
    && forall i :: 0 <= i < |opens| ==> FrameFits(c, m, lams, stack[i], stack[i + 1], opens[i])
  }

  /** A frame's kind and lambda do not change while it is open. */
  predicate SameFrame(f: Frame, g: Frame) { f.kind == g.kind && f.lam == g.lam }

  ghost predicate SameFrames(s: seq<Frame>, t: seq<Frame>) {
    |s| == |t| && forall i :: 0 <= i < |s| ==> SameFrame(s[i], t[i])
  }

  lemma MirrorsKept(c: Code, m: Brackets, lams: seq<Lambda>, lams': seq<Lambda>, stack: seq<Frame>, stack': seq<Frame>,
                    opens: seq<nat>)
    requires m.Matched? && Mirrors(c, m, lams, stack, opens) && SameFrames(stack, stack') && LambdasGrow(lams, lams')
    ensures Mirrors(c, m, lams', stack', opens)
  {
    forall i | 0 <= i < |opens| ensures FrameFits(c, m, lams', stack'[i], stack'[i + 1], opens[i]) {
      assert FrameFits(c, m, lams, stack[i], stack[i + 1], opens[i]);
      assert SameFrame(stack[i], stack'[i]) && SameFrame(stack[i + 1], stack'[i + 1]);
    }
  }

  lemma MirrorsPushed(c: Code, m: Brackets, lams: seq<Lambda>, stack: seq<Frame>, opens: seq<nat>, f: Frame, p: nat)
    requires m.Matched? && Mirrors(c, m, lams, stack, opens) && FrameFits(c, m, lams, stack[|stack| - 1], f, p)
    ensures Mirrors(c, m, lams, stack + [f], opens + [p])
  {
    hide FrameFits;
  }

  lemma MirrorsPopped(c: Code, m: Brackets, lams: seq<Lambda>, stack: seq<Frame>, opens: seq<nat>)
    requires m.Matched? && Mirrors(c, m, lams, stack, opens) && opens != []
    ensures Mirrors(c, m, lams, stack[..|stack| - 1], opens[..|opens| - 1])
  {
    hide FrameFits;
  }

  ghost predicate MirrorsAt(c: Code, m: Brackets, pos: nat, st: Scan)
    requires m.Matched? && pos <= |c|
  {
    Mirrors(c, m, st.lams, st.stack, OpensAt(c, pos))
  }

  lemma NameMirrors(c: Code, m: Brackets, pos: nat, st: Scan)
    requires WellNested(c, m) && pos < |c| && c[pos].kind != Op && st.stack != [] && MirrorsAt(c, m, pos, st)
    ensures MirrorsAt(c, m, pos + 1, WalkStep(c, m, pos, st).0)
  {
    StepLambdas(c, m, pos, st);
    var st' := WalkStep(c, m, pos, st).0;
    assert SameFrames(st.stack, st'.stack) by { NameFrames(c, m, pos, st); }
    hide WalkStep, FrameFits, WellNested;
    MirrorsKept(c, m, st.lams, st'.lams, st.stack, st'.stack, OpensAt(c, pos));
  }

  lemma NameFrames(c: Code, m: Brackets, pos: nat, st: Scan)
    requires Pairs(c, m) && pos < |c| && c[pos].kind != Op && st.stack != []
    ensures SameFrames(st.stack, WalkStep(c, m, pos, st).0.stack)
  {
    hide RoleOf, LookupLevel, Called, InColumnPhrase, RelativeDotted, IsRelative, Pairs;
  }

  lemma QuietMirrors(c: Code, m: Brackets, pos: nat, st: Scan)
    requires WellNested(c, m) && pos < |c| && c[pos].kind == Op && !IsOpener(c[pos].text) && !IsCloser(c[pos].text)
    requires st.stack != [] && MirrorsAt(c, m, pos, st)
    ensures MirrorsAt(c, m, pos + 1, OpStep(c, m, pos, st).0) && OpStep(c, m, pos, st).1 == pos
  {
    var st' := OpStep(c, m, pos, st).0;
    assert st'.lams == st.lams && SameFrames(st.stack, st'.stack) &&
           OpStep(c, m, pos, st).1 == pos by { hide Pairs, WellNested, RelativeSymbol, MirrorsAt; }
    hide OpStep, FrameFits, WellNested;
    MirrorsKept(c, m, st.lams, st'.lams, st.stack, st'.stack, OpensAt(c, pos));
  }

  lemma CloserPops(c: Code, m: Brackets, pos: nat, st: Scan)
    requires Pairs(c, m) && pos < |c| && CloserAt(c, pos) && |st.stack| >= 2
    ensures var (st', last) := OpStep(c, m, pos, st);
            st'.lams == st.lams && SameFrames(st.stack[..|st.stack| - 1], st'.stack) && last == pos
  {
    NotBoth(c, pos);
    hide Pairs;
  }

  lemma CloserMirrors(c: Code, m: Brackets, pos: nat, st: Scan)
    requires WellNested(c, m) && pos < |c| && CloserAt(c, pos) && st.stack != [] && MirrorsAt(c, m, pos, st)
    ensures |st.stack| >= 2 && MirrorsAt(c, m, pos + 1, OpStep(c, m, pos, st).0) && OpStep(c, m, pos, st).1 == pos
  {
    var opens := OpensAt(c, pos);
    hide OpStep, FrameFits, WellNested, OpensAt, Pairs, LambdasGrow, Mirrors, CloserAt, OpenerAt;
    NotBoth(c, pos);
    ClosedIs(c, m, pos);
    MirrorsPopped(c, m, st.lams, st.stack, opens);
    MirrorsLong(c, m, st.lams, st.stack, opens);
    CloserPops(c, m, pos, st);
    OpensStep(c, pos);
    LambdasAsTheyAre(st.lams);
    MirrorsKept(c, m, st.lams, st.lams, st.stack[..|st.stack| - 1], OpStep(c, m, pos, st).0.stack,
                opens[..|opens| - 1]);
  }

  lemma MirrorsLong(c: Code, m: Brackets, lams: seq<Lambda>, stack: seq<Frame>, opens: seq<nat>)
    requires m.Matched? && Mirrors(c, m, lams, stack, opens)
    ensures |stack| == |opens| + 1
  {
  }

  lemma LambdasAsTheyAre(lams: seq<Lambda>)
    ensures LambdasGrow(lams, lams)
  {
    forall i | 0 <= i < |lams| ensures lams[i] == lams[i].(locals := lams[i].locals) {}
  }

  lemma OpenerPushes(c: Code, m: Brackets, pos: nat, st: Scan)
    requires Pairs(c, m) && pos < |c| && OpenerAt(c, pos) && c[pos].text != "{" && st.stack != []
    ensures var (st', last) := OpStep(c, m, pos, st);
            && last == pos && st'.lams == st.lams && |st'.stack| == |st.stack| + 1
            && st'.stack == st.stack + [st'.stack[|st.stack|]] &&
              FrameFits(c, m, st.lams, TopOf(st), st'.stack[|st.stack|], pos)
  {
    hide Pairs;
  }

  lemma OpenerMirrors(c: Code, m: Brackets, pos: nat, st: Scan)
    requires WellNested(c, m) && pos < |c| && OpenerAt(c, pos) && c[pos].text != "{" && st.stack != []
    requires MirrorsAt(c, m, pos, st)
    ensures MirrorsAt(c, m, pos + 1, OpStep(c, m, pos, st).0) && OpStep(c, m, pos, st).1 == pos
  {
    assert Pairs(c, m) && m.Matched?;
    hide OpStep, FrameFits, WellNested, OpensAt, Pairs, Mirrors, OpenerAt;
    OpenerPushes(c, m, pos, st);
    OpensStep(c, pos);
    MirrorsPushed(c, m, st.lams, st.stack, OpensAt(c, pos), OpStep(c, m, pos, st).0.stack[|st.stack|], pos);
  }

  /** What a lambda's brace does: a frame and a lambda more, and the parameter list passed. */
  lemma LambdaOpens(c: Code, m: Brackets, pos: nat, st: Scan, f: Frame)
    requires Pairs(c, m) && pos < |c| && OpenerAt(c, pos) && c[pos].text == "{" && st.stack != []
    requires f == Frame(InLambda, Some(|st.lams|), NoPhrase, false)
    ensures var (st', last) := OpStep(c, m, pos, st);
            && st'.stack == st.stack + [f] && LambdasGrow(st.lams, st'.lams)
            && FrameFits(c, m, st'.lams, TopOf(st), f, pos)
            && last == if HasParams(c, m, pos) then m.close[pos + 1] else pos
  {
    OpenPairs(c, m, pos);
    hide HasParams, Called, ParamNames;
    assert OpStep(c, m, pos, st) == OpenLambda(c, m, pos, st);
    hide OpStep, Pairs;
  }

  lemma OpensPastParams(c: Code, m: Brackets, pos: nat)
    requires WellNested(c, m) && m.Matched? && pos < |c| && OpenerAt(c, pos)
    ensures var last := if HasParams(c, m, pos) then m.close[pos + 1] else pos;
            last < |c| && OpensAt(c, last + 1) == OpensAt(c, pos) + [pos]
  {
    hide *;
    OpensStep(c, pos);
    if HasParams(c, m, pos) {
      ParamsPair(c, m, pos);
      OpensPast(c, m, pos + 1);
    }
  }

  lemma ParamsPair(c: Code, m: Brackets, pos: nat)
    requires WellNested(c, m) && pos < |c| && HasParams(c, m, pos)
    ensures m.Matched? && pos + 1 < |c| && pos + 1 in m.close && m.close[pos + 1] < |c| && OpenerAt(c, pos + 1)
  {
    PairOf(c, m, pos + 1);
    hide OpenerAt, Pairs;
  }

  lemma LambdaMirrors(c: Code, m: Brackets, pos: nat, st: Scan)
    requires WellNested(c, m) && pos < |c| && OpenerAt(c, pos) && c[pos].text == "{" && st.stack != []
    requires MirrorsAt(c, m, pos, st)
    ensures var (st', last) := OpStep(c, m, pos, st); MirrorsAt(c, m, last + 1, st')
  {
    var (st', last) := OpStep(c, m, pos, st);
    var f := Frame(InLambda, Some(|st.lams|), NoPhrase, false);
    hide OpStep, FrameFits, WellNested, HasParams, OpensAt, Pairs, LambdasGrow, Mirrors, OpenerAt;
    LambdaOpens(c, m, pos, st, f);
    OpensPastParams(c, m, pos);
    FramesAsTheyAre(st.stack);
    MirrorsKept(c, m, st.lams, st'.lams, st.stack, st.stack, OpensAt(c, pos));
    MirrorsPushed(c, m, st'.lams, st.stack, OpensAt(c, pos), f, pos);
  }

  lemma FramesAsTheyAre(stack: seq<Frame>)
    ensures SameFrames(stack, stack)
  {
  }

  lemma StepMirrors(c: Code, m: Brackets, pos: nat, st: Scan)
    requires WellNested(c, m) && pos < |c| && st.stack != [] && MirrorsAt(c, m, pos, st)
    ensures var (st', next) := WalkStep(c, m, pos, st); MirrorsAt(c, m, next, st')
  {
    hide MirrorsAt, WellNested, OpStep, NameStep;
    if c[pos].kind != Op {
      NameMirrors(c, m, pos, st);
    } else if IsCloser(c[pos].text) {
      CloserMirrors(c, m, pos, st);
    } else if !IsOpener(c[pos].text) {
      QuietMirrors(c, m, pos, st);
    } else if c[pos].text == "{" {
      LambdaMirrors(c, m, pos, st);
    } else {
      OpenerMirrors(c, m, pos, st);
    }
  }

  // ---- whose each use is

  /** The use's lambda is the innermost one open where it stands. */
  ghost predicate Placed(c: Code, lams: seq<Lambda>, u: Use) {
    u.pos < |c| &&
    var opens := OpensAt(c, u.pos);
    match u.lam
    case None => forall p: nat :: p in opens && p < |c| ==> c[p].text != "{"
    case Some(k) => k < |lams| && lams[k].open < |c| && lams[k].open in opens && c[lams[k].open].text == "{" &&
                    forall p: nat :: p in opens && p < |c| && c[p].text == "{" ==> p <= lams[k].open
  }

  lemma {:induction false} TopIsInnermost(c: Code, m: Brackets, lams: seq<Lambda>, stack: seq<Frame>, opens: seq<nat>)
    requires m.Matched? && Mirrors(c, m, lams, stack, opens)
    requires forall i, j :: 0 <= i < j < |opens| ==> opens[i] < opens[j]
    ensures match stack[|stack| - 1].lam
            case None => forall p: nat :: p in opens && p < |c| ==> c[p].text != "{"
            case Some(k) => k < |lams| && lams[k].open < |c| && lams[k].open in opens && c[lams[k].open].text == "{" &&
                            forall p: nat :: p in opens && p < |c| && c[p].text == "{" ==> p <= lams[k].open
    decreases |opens|
  {
    if opens != [] {
      var n := |opens| - 1;
      MirrorsPopped(c, m, lams, stack, opens);
      TopIsInnermost(c, m, lams, stack[..|stack| - 1], opens[..n]);
      assert FrameFits(c, m, lams, stack[n], stack[n + 1], opens[n]);
      assert forall p: nat :: p in opens <==> p in opens[..n] || p == opens[n];
    }
  }

  lemma StepPlaced(c: Code, m: Brackets, pos: nat, st: Scan)
    requires WellNested(c, m) && pos < |c| && st.stack != [] && MirrorsAt(c, m, pos, st)
    ensures var st' := WalkStep(c, m, pos, st).0;
            |st'.uses| > |st.uses| ==> Placed(c, st.lams, st'.uses[|st.uses|])
  {
    StepUses(c, m, pos, st);
    OpenExactly(c, m, pos);
    hide WalkStep, WellNested, RoleOf, FrameFits;
    TopIsInnermost(c, m, st.lams, st.stack, OpensAt(c, pos));
  }

  lemma PlacedKept(c: Code, lams: seq<Lambda>, lams': seq<Lambda>, u: Use)
    requires Placed(c, lams, u) && LambdasGrow(lams, lams')
    ensures Placed(c, lams', u)
  {
    hide OpensAt;
  }

  ghost predicate AllPlaced(c: Code, st: Scan) {
    forall i :: 0 <= i < |st.uses| ==> Placed(c, st.lams, st.uses[i])
  }

  /** At every round of the walk from `pos` the stack mirrors the open brackets,
      and where a closer stands there is a frame to pop. */
  ghost predicate MirrorsThroughout(c: Code, m: Brackets, pos: nat, st: Scan)
    requires Pairs(c, m) && pos <= |c| && st.stack != []
    decreases |c| - pos
  {
    && MirrorsAt(c, m, pos, st)
    && (pos < |c| ==>
          && (CloserAt(c, pos) ==> |st.stack| >= 2)
          && MirrorsThroughout(c, m, WalkStep(c, m, pos, st).1, WalkStep(c, m, pos, st).0))
  }

  /** The walk mirrors the brackets at every round, and each use it records is placed. */
  lemma {:induction false} WalkMirrors(c: Code, m: Brackets, pos: nat, st: Scan)
    requires WellNested(c, m) && pos <= |c| && st.stack != [] && MirrorsAt(c, m, pos, st) && AllPlaced(c, st)
    ensures MirrorsThroughout(c, m, pos, st)
    ensures MirrorsAt(c, m, |c|, Walk(c, m, pos, st)) && AllPlaced(c, Walk(c, m, pos, st))
    decreases |c| - pos
  {
    if pos < |c| {
      assert Pairs(c, m);
      hide WalkStep, WellNested, MirrorsAt, Placed, LambdasGrow, Pairs, CloserAt;
      var (st', next) := WalkStep(c, m, pos, st);
      if CloserAt(c, pos) { CloserMirrors(c, m, pos, st); }
      StepMirrors(c, m, pos, st);
      StepPlaces(c, m, pos, st);
      WalkMirrors(c, m, next, st');
    }
  }

  lemma StepPlaces(c: Code, m: Brackets, pos: nat, st: Scan)
    requires WellNested(c, m) && pos < |c| && st.stack != [] && MirrorsAt(c, m, pos, st) && AllPlaced(c, st)
    ensures AllPlaced(c, WalkStep(c, m, pos, st).0)
  {
    var st' := WalkStep(c, m, pos, st).0;
    StepUses(c, m, pos, st);
    hide WalkStep, WellNested, MirrorsAt, Placed, LambdasGrow, Pairs;
    StepLambdas(c, m, pos, st);
    StepPlaced(c, m, pos, st);
    forall i | 0 <= i < |st'.uses| ensures Placed(c, st'.lams, st'.uses[i]) {
      PlacedKept(c, st.lams, st'.lams, st'.uses[i]);
    }
  }

  /** Each lambda's recorded span is a pair of brackets. */
  ghost predicate SpansPair(m: Brackets, lams: seq<Lambda>)
    requires m.Matched?
  {
    forall k :: 0 <= k < |lams| ==> lams[k].open in m.close && lams[k].close == m.close[lams[k].open]
  }

  lemma StepSpans(c: Code, m: Brackets, pos: nat, st: Scan)
    requires Pairs(c, m) && pos < |c| && st.stack != [] && SpansPair(m, st.lams)
    ensures SpansPair(m, WalkStep(c, m, pos, st).0.lams)
  {
    hide RoleOf, LookupLevel, Called, InColumnPhrase, RelativeDotted, IsRelative, HasParams, ParamNames, IsBuiltin;
    hide Pairs;
    if OpenerAt(c, pos) { OpenPairs(c, m, pos); }
  }

  lemma OpenPairs(c: Code, m: Brackets, p: nat)
    requires Pairs(c, m) && OpenerAt(c, p)
    ensures p in m.close
  {
    hide OpenerAt, CloserAt, CloserOf;
  }

  lemma {:induction false} WalkSpans(c: Code, m: Brackets, pos: nat, st: Scan)
    requires Pairs(c, m) && pos <= |c| && st.stack != [] && SpansPair(m, st.lams)
    ensures SpansPair(m, Walk(c, m, pos, st).lams)
    decreases |c| - pos
  {
    if pos < |c| {
      StepSpans(c, m, pos, st);
      hide WalkStep, Pairs, SpansPair;
      var (st', next) := WalkStep(c, m, pos, st);
      WalkSpans(c, m, next, st');
    }
  }

  /** The use stands inside the lambda's braces. */
  predicate Within(l: Lambda, u: Use) { l.open < u.pos < l.close }

  /** A use's own lambda holds it, and no lambda's brace opened inside that one does. */
  ghost predicate Innermost(c: Code, m: Brackets, lams: seq<Lambda>, u: Use)
    requires m.Matched?
  {
    && Placed(c, lams, u)
    && (forall p: nat :: p in OpensAt(c, u.pos) <==> StillOpen(c, m, u.pos, p))
    && (u.lam.Some? ==> Within(lams[u.lam.value], u))
  }

  lemma UseIsInnermost(c: Code, m: Brackets, lams: seq<Lambda>, u: Use)
    requires WellNested(c, m) && SpansPair(m, lams) && Placed(c, lams, u) && HasKind(c, u.pos, Name)
    ensures Innermost(c, m, lams, u)
  {
    PlacedInside(c, lams, u);
    OpenExactly(c, m, u.pos);
    if u.lam.Some? {
      var p := lams[u.lam.value].open;
      PairOf(c, m, p);
      assert StillOpen(c, m, u.pos, p);
      assert m.close[p] != u.pos;
    }
    hide WellNested, OpensAt, SpansPair;
  }

  /** SCANNER CORRECTNESS. A statement that parses ends with the top frame alone,
      and each use belongs to the innermost lambda whose braces hold it, or to
      none when no lambda's do. */
  lemma {:induction false} UsesAreInnermost(c: Code)
    requires ParseCode(c).Parsed?
    ensures MatchAll(c).Matched? && |Walk(c, MatchAll(c), 0, START).stack| == 1
    ensures forall i :: 0 <= i < |ParseCode(c).uses| ==>
              Innermost(c, MatchAll(c), ParseCode(c).lams, ParseCode(c).uses[i])
  {
    var m := MatchAll(c);
    MatchedIsNested(c);
    WalkUses(c, m, 0, START);
    hide WellNested, Walk, Placed, FrameFits, MatchAll, Innermost, SpansPair, Pairs;
    assert Mirrors(c, m, START.lams, START.stack, []);
    WalkMirrors(c, m, 0, START);
    NoLambdas(m);
    WalkSpans(c, m, 0, START);
    NoneOpenAtEnd(c, m);
    forall i | 0 <= i < |ParseCode(c).uses| ensures Innermost(c, m, ParseCode(c).lams, ParseCode(c).uses[i]) {
      UseIsInnermost(c, m, ParseCode(c).lams, ParseCode(c).uses[i]);
    }
  }

  lemma NoLambdas(m: Brackets)
    requires m.Matched?
    ensures SpansPair(m, START.lams)
  {
  }

  lemma PlacedInside(c: Code, lams: seq<Lambda>, u: Use)
    requires Placed(c, lams, u)
    ensures u.pos < |c|
    ensures u.lam.Some? ==> u.lam.value < |lams| && lams[u.lam.value].open in OpensAt(c, u.pos)
  {
  }

  lemma NoneOpenAtEnd(c: Code, m: Brackets)
    requires WellNested(c, m)
    ensures OpensAt(c, |c|) == [] && Pairs(c, m)
  {
  }
}
