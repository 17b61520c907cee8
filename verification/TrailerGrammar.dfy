/** Which lines attest something, and what, said of the line's text. */
module TrailerGrammar {
  import opened Options
  import opened Chars
  import opened Trailers

  // ---- words between white space

  ghost predicate Leads(s: string, lead: string, word: string, rest: string) {
    && AllSpaces(lead) && word != "" && NoSpace(word) && (rest == "" || IsSpace(rest[0])) && s == lead + word + rest
  }

  /** The text is these words, white space between them. */
  ghost predicate Spells(s: string, words: seq<string>)
    decreases |words|
  {
    if words == [] then AllSpaces(s)
    else exists lead, rest :: Leads(s, lead, words[0], rest) && Spells(rest, words[1..])
  }

  lemma SpacesHold(s: string)
    ensures AllSpaces(s) <==> AfterSpaces(s) == ""
  {
  }

  /** The first word and the rest are the only ones there can be. */
  lemma LeadsIs(s: string, lead: string, word: string, rest: string)
    requires Leads(s, lead, word, rest)
    ensures AfterSpaces(s) == word + rest && Words(s) == [word] + Words(rest)
  {
    hide *;
    LeadsText(s, lead, word, rest);
    PastLead(lead, word + rest);
    PastLead("", word + rest);
    assert "" + (word + rest) == word + rest;
    FirstWord(word, rest);
    WordsAfter(s);
    WordsAfter(word + rest);
  }

  lemma LeadsText(s: string, lead: string, word: string, rest: string)
    requires Leads(s, lead, word, rest)
    ensures s == lead + (word + rest) && AllSpaces(lead) && AllSpaces("") && word != "" && NoSpace(word)
    ensures word + rest != "" && !IsSpace((word + rest)[0]) && (rest == "" || IsSpace(rest[0]))
  {
    hide IsSpace;
    assert (word + rest)[0] == word[0];
  }

  lemma PastLead(lead: string, t: string)
    requires AllSpaces(lead) && t != "" && !IsSpace(t[0])
    ensures AfterSpaces(lead + t) == t
  {
    hide IsSpace;
    var s := lead + t;
    assert s[|lead|] == t[0];
    assert forall i :: 0 <= i < |lead| ==> s[i] == lead[i];
    assert LeadingSpaces(s) == |lead|;
  }

  lemma WordsAfter(s: string)
    ensures Words(s) == var t := AfterSpaces(s);
                        if t == "" then [] else [t[..1 + WordEnd(t[1..])]] + Words(t[1 + WordEnd(t[1..])..])
  {
    hide AfterSpaces, WordEnd;
  }

  lemma FirstLeads(s: string) returns (lead: string, rest: string)
    requires !AllSpaces(s)
    ensures Words(s) != [] && Leads(s, lead, Words(s)[0], rest) && Words(s)[1..] == Words(rest) && |rest| < |s|
  {
    hide IsSpace, Words, AfterSpaces, WordEnd, NoSpace;
    SpacesHold(s);
    WordsAfter(s);
    var t := AfterSpaces(s);
    lead := SpacesBefore(s);
    WordAt(t);
    var k := 1 + WordEnd(t[1..]);
    rest := t[k..];
    assert t == t[..k] + rest;
    assert s == lead + t[..k] + rest;
  }

  lemma SpacesBefore(s: string) returns (lead: string)
    ensures AllSpaces(lead) && s == lead + AfterSpaces(s)
  {
    hide IsSpace, LeadingSpaces;
    lead := s[..LeadingSpaces(s)];
  }

  lemma WordAt(t: string)
    requires t != "" && !IsSpace(t[0])
    ensures var k := 1 + WordEnd(t[1..]);
            k <= |t| && t[..k] != "" && NoSpace(t[..k]) && (t[k..] == "" || IsSpace(t[k..][0]))
  {
    hide IsSpace;
    var k := 1 + WordEnd(t[1..]);
    forall i | 0 <= i < k ensures !IsSpace(t[i]) { if i > 0 { assert t[i] == t[1..][i - 1]; } }
    if k < |t| { assert t[k..][0] == t[1..][k - 1]; }
  }

  /** WORDS. Splitting finds the words the text spells. */
  lemma {:induction false} WordsIff(s: string, words: seq<string>)
    ensures Words(s) == words <==> Spells(s, words)
    decreases |words|, |s|
  {
    hide IsSpace, AfterSpaces, Words, Leads;
    if AllSpaces(s) {
      SpacesHold(s);
      WordsAfter(s);
      if words != [] { NoLead(s, words[0]); }
    } else {
      var lead, rest := FirstLeads(s);
      if words != [] {
        WordsIff(rest, words[1..]);
        if Spells(s, words) {
          var lead', rest' :| Leads(s, lead', words[0], rest') && Spells(rest', words[1..]);
          LeadsIs(s, lead', words[0], rest');
          WordsIff(rest', words[1..]);
        }
        assert words == [words[0]] + words[1..];
      }
    }
  }

  lemma NoLead(s: string, word: string)
    requires AllSpaces(s)
    ensures forall lead, rest :: !Leads(s, lead, word, rest)
  {
    hide Leads;
    forall lead, rest ensures !Leads(s, lead, word, rest) {
      if Leads(s, lead, word, rest) { LeadIsText(s, lead, word, rest); }
    }
  }

  lemma LeadIsText(s: string, lead: string, word: string, rest: string)
    requires Leads(s, lead, word, rest)
    ensures !AllSpaces(s)
  {
    assert s[|lead|] == word[0];
  }

  // ---- fields

  /** `all`, or 64 hexadecimal digits. */
  predicate Value(v: string, what: What) {
    match what
    case All => v == "all"
    case Subset(d) => v == d && |d| == 64 && forall i :: 0 <= i < |d| ==> d[i] in "0123456789abcdef"
  }

  ghost predicate FieldOf(word: string, key: string, what: What) {
    key in {"q-tests", "q-coverage"} && exists v :: Value(v, what) && word == key + "=" + v
  }

  lemma ValueIff(v: string, what: What)
    ensures ReadWhat(v) == Some(what) <==> Value(v, what)
  {
    var hex := "0123456789abcdef";
    assert forall c :: c in hex <==> '0' <= c <= '9' || 'a' <= c <= 'f';
    assert |"all"| == 3;
  }

  lemma FieldIff(word: string, key: string, what: What)
    ensures FieldOf(word, key, what) <==>
              && IndexOf(word, '=') < |word| && word[..IndexOf(word, '=')] == key && key in {Q_TESTS, Q_COVERAGE}
              && ReadWhat(word[IndexOf(word, '=') + 1..]) == Some(what)
  {
    hide *;
    if FieldOf(word, key, what) { FieldCut(word, key, what); }
    var k := IndexOf(word, '=');
    if k < |word| && word[..k] == key && key in {Q_TESTS, Q_COVERAGE} && ReadWhat(word[k + 1..]) == Some(what) {
      ValueIff(word[k + 1..], what);
      FieldBy(word, k, key, what);
    }
  }

  lemma FieldCut(word: string, key: string, what: What)
    requires FieldOf(word, key, what)
    ensures var k := IndexOf(word, '=');
            k < |word| && word[..k] == key && key in {Q_TESTS, Q_COVERAGE} && ReadWhat(word[k + 1..]) == Some(what)
  {
    hide ReadWhat, Value, IndexOf;
    var v :| Value(v, what) && word == key + "=" + v;
    KeyHasNone(key);
    IndexAfter(key, '=', v);
    CutAtKey(word, key, v);
    ValueIff(v, what);
  }

  lemma FieldBy(word: string, k: nat, key: string, what: What)
    requires k < |word| && word[k] == '=' && word[..k] == key && key in {Q_TESTS, Q_COVERAGE}
    requires Value(word[k + 1..], what)
    ensures FieldOf(word, key, what)
  {
    hide Value;
    assert word == key + "=" + word[k + 1..];
  }

  lemma CutAtKey(word: string, key: string, v: string)
    requires word == key + "=" + v
    ensures word == key + ['='] + v && |key| < |word| && word[..|key|] == key && word[|key| + 1..] == v
  {
  }

  lemma KeyHasNone(key: string)
    requires key in {"q-tests", "q-coverage"}
    ensures '=' !in key
  {
  }


  ghost predicate IsField(word: string) { exists key, what :: FieldOf(word, key, what) }

  ghost predicate AllFields(words: seq<string>) { forall i :: 0 <= i < |words| ==> IsField(words[i]) }

  /** What two fields say over what was said before them. */
  function Over(so: (What, What), key: string, what: What): (What, What) {
    if key == "q-tests" then (what, so.1) else (so.0, what)
  }

  lemma OneField(word: string, key: string, what: What, key': string, what': What)
    requires FieldOf(word, key, what) && FieldOf(word, key', what')
    ensures key == key' && what == what'
  {
    hide FieldOf, ReadWhat, IndexOf;
    FieldIff(word, key, what);
    FieldIff(word, key', what');
  }

  lemma ReadFieldIff(word: string, so: (What, What))
    ensures ReadField(word, so).Some? <==> IsField(word)
    ensures forall key, what :: FieldOf(word, key, what) ==> ReadField(word, so) == Some(Over(so, key, what))
  {
    hide FieldOf, ReadWhat, IndexOf;
    KeysApart();
    forall key, what ensures FieldOf(word, key, what) <==>
                               && IndexOf(word, '=') < |word| && word[..IndexOf(word, '=')] == key
                               && key in {Q_TESTS, Q_COVERAGE}
                               && ReadWhat(word[IndexOf(word, '=') + 1..]) == Some(what) {
      FieldIff(word, key, what);
    }
    if ReadField(word, so).Some? {
      var k := IndexOf(word, '=');
      assert FieldOf(word, word[..k], ReadWhat(word[k + 1..]).value);
    }
  }

  lemma KeysApart()
    ensures Q_TESTS == "q-tests" && Q_COVERAGE == "q-coverage" && Q_TESTS != Q_COVERAGE
  {
    assert Q_TESTS[2] != Q_COVERAGE[2];
  }

  /** Word `i` is the last field of this key, and says so. */
  ghost predicate LastField(words: seq<string>, key: string, what: What, i: int) {
    0 <= i < |words| && FieldOf(words[i], key, what) && forall j, w :: i < j < |words| ==> !FieldOf(words[j], key, w)
  }

  /** The last field of this key says so; without one it is as before. */
  ghost predicate SaysOver(words: seq<string>, key: string, before: What, what: What) {
    || (what == before && forall i, w :: 0 <= i < |words| ==> !FieldOf(words[i], key, w))
    || (exists i :: LastField(words, key, what, i))
  }

  lemma SaysOverMore(words: seq<string>, key: string, before: What, mid: What, what: What)
    requires words != []
    requires (forall w :: FieldOf(words[0], key, w) ==> mid == w)
    requires (forall w :: !FieldOf(words[0], key, w)) ==> mid == before
    ensures SaysOver(words, key, before, what) <==> SaysOver(words[1..], key, mid, what)
  {
    hide FieldOf;
    var rest := words[1..];
    assert forall i :: 0 <= i < |rest| ==> rest[i] == words[i + 1];
    assert forall i :: 1 <= i < |words| ==> words[i] == rest[i - 1];
    if SaysOver(words, key, before, what) {
      if i :| LastField(words, key, what, i) {
        if i > 0 { assert LastField(rest, key, what, i - 1); }
      }
    }
    if SaysOver(rest, key, mid, what) {
      if i :| LastField(rest, key, what, i) {
        assert LastField(words, key, what, i + 1);
      } else if w :| FieldOf(words[0], key, w) {
        assert LastField(words, key, what, 0);
      }
    }
  }

  lemma {:induction false} ReadFieldsIff(words: seq<string>, so: (What, What), qTests: What, qCoverage: What)
    ensures ReadFields(words, so).Some? <==> AllFields(words)
    ensures AllFields(words) ==>
              (ReadFields(words, so) == Some((qTests, qCoverage)) <==>
               SaysOver(words, "q-tests", so.0, qTests) && SaysOver(words, "q-coverage", so.1, qCoverage))
    decreases |words|
  {
    hide FieldOf, IsField, ReadField, SaysOver;
    if words == [] {
      NothingSaid(so.0, qTests);
      NothingSaid(so.1, qCoverage);
    } else {
      ReadFieldIff(words[0], so);
      FieldsMore(words);
      if IsField(words[0]) {
        var key, what := FieldParts(words[0]);
        FieldIsOne(words[0], key, what);
        ReadFieldsIff(words[1..], Over(so, key, what), qTests, qCoverage);
        SaysOverMore(words, "q-tests", so.0, Over(so, key, what).0, qTests);
        SaysOverMore(words, "q-coverage", so.1, Over(so, key, what).1, qCoverage);
      }
    }
  }

  lemma NothingSaid(before: What, what: What)
    ensures forall key :: SaysOver([], key, before, what) <==> what == before
  {
  }

  lemma FieldsMore(words: seq<string>)
    requires words != []
    ensures AllFields(words) <==> IsField(words[0]) && AllFields(words[1..])
  {
    hide IsField;
    assert forall i :: 1 <= i < |words| ==> words[i] == words[1..][i - 1];
  }

  lemma FieldParts(word: string) returns (key: string, what: What)
    requires IsField(word)
    ensures FieldOf(word, key, what)
  {
    hide FieldOf;
    key, what :| FieldOf(word, key, what);
  }

  /** Of the two keys a field has one. */
  lemma FieldIsOne(word: string, key: string, what: What)
    requires FieldOf(word, key, what)
    ensures key in {"q-tests", "q-coverage"}
    ensures forall key', w :: FieldOf(word, key', w) ==> key' == key && w == what
  {
    forall key', w | FieldOf(word, key', w) ensures key' == key && w == what { OneField(word, key, what, key', w); }
  }

  // ---- hooks

  /** Between commas, or an end of the list. */
  ghost predicate Item(list: string, h: string, pre: string, post: string) {
    list == pre + h + post && (pre == "" || pre[|pre| - 1] == ',') && (post == "" || post[0] == ',')
  }

  ghost predicate ItemOf(list: string, h: string) { ',' !in h && exists pre, post :: Item(list, h, pre, post) }

  lemma {:induction false} SplitIff(list: string, h: string)
    ensures h in SplitOn(list, ',') <==> ItemOf(list, h)
    decreases |list|
  {
    hide Item, IndexOf;
    var k := IndexOf(list, ',');
    FirstItem(list, h);
    assert list[..|list|] == list;
    if k < |list| { SplitIff(list[k + 1..], h); }
  }

  /** An item is the first, or one of the rest. */
  lemma FirstItem(list: string, h: string)
    ensures var k := IndexOf(list, ',');
            ItemOf(list, h) <==> h == list[..k] || (k < |list| && ItemOf(list[k + 1..], h))
  {
    hide Item, IndexOf;
    var k := IndexOf(list, ',');
    if h == list[..k] {
      FirstIsItem(list, k);
    }
    if k < |list| && ItemOf(list[k + 1..], h) {
      var pre, post :| Item(list[k + 1..], h, pre, post);
      LaterItem(list, k, h, pre, post);
    }
    if ItemOf(list, h) {
      var pre, post :| Item(list, h, pre, post);
      WhichItem(list, k, h, pre, post);
    }
  }

  lemma FirstIsItem(list: string, k: nat)
    requires k <= |list| && (forall i :: 0 <= i < k ==> list[i] != ',') && (k < |list| ==> list[k] == ',')
    ensures ItemOf(list, list[..k])
  {
    assert list == "" + list[..k] + list[k..];
    assert Item(list, list[..k], "", list[k..]);
  }

  lemma LaterItem(list: string, k: nat, h: string, pre: string, post: string)
    requires k < |list| && list[k] == ',' && Item(list[k + 1..], h, pre, post) && ',' !in h
    ensures ItemOf(list, h)
  {
    var before := list[..k + 1] + pre;
    assert list == list[..k + 1] + list[k + 1..];
    assert list == before + h + post;
    assert before[|before| - 1] == if pre == "" then list[k] else pre[|pre| - 1];
    assert Item(list, h, before, post);
  }

  lemma WhichItem(list: string, k: nat, h: string, pre: string, post: string)
    requires k <= |list| && (forall i :: 0 <= i < k ==> list[i] != ',') && (k < |list| ==> list[k] == ',')
    requires Item(list, h, pre, post) && ',' !in h
    ensures h == list[..k] || (k < |list| && ItemOf(list[k + 1..], h))
  {
    if pre == "" {
      assert list == h + post;
      assert forall i :: 0 <= i < |h| ==> list[i] == h[i];
      if post != "" { assert list[|h|] == ','; }
      assert k == |h|;
      assert list[..k] == h;
    } else {
      assert list[|pre| - 1] == ',';
      assert k <= |pre| - 1;
      var pre' := pre[k + 1..];
      assert list[k + 1..] == pre' + h + post;
      if pre' != "" { assert pre'[|pre'| - 1] == pre[|pre| - 1]; }
      assert Item(list[k + 1..], h, pre', post);
    }
  }

  ghost predicate HooksListed(list: string, hooks: set<string>) {
    forall h :: h in hooks <==> h != "" && ItemOf(list, h)
  }

  lemma HooksIff(word: string, list: string, hooks: set<string>)
    requires word == "hooks=" + list
    ensures HOOKS_KEY <= word && (HooksOf(word) == hooks <==> HooksListed(list, hooks))
  {
    hide SplitOn, ItemOf;
    assert word[|HOOKS_KEY|..] == list;
    forall h ensures h in SplitOn(list, ',') <==> ItemOf(list, h) { SplitIff(list, h); }
  }

  // ---- the line

  /** What follows the tree: nothing, for every hook run on everything; or a list of
      hooks and any number of fields. */
  ghost predicate RestSays(rest: string, every: set<string>, a: Attested) {
    || (AllSpaces(rest) && a == Attested(every, All, All))
    || (!AllSpaces(rest) && rest[0] == ' ' && exists words, list :: Listing(rest, words, list, a))
  }

  ghost predicate Listing(rest: string, words: seq<string>, list: string, a: Attested) {
    && words != [] && Spells(rest, words) && words[0] == "hooks=" + list && HooksListed(list, a.hooks)
    && AllFields(words[1..]) && SaysOver(words[1..], "q-tests", All, a.qTests)
    && SaysOver(words[1..], "q-coverage", All, a.qCoverage)
  }

  /** White space, the prefix and the tree, what is said of it, and white space. */
  ghost predicate LineSays(line: string, tree: string, every: set<string>, a: Attested) {
    exists lead, text, rest, tail :: LineIs(line, tree, lead, text, rest, tail) && RestSays(rest, every, a)
  }

  ghost predicate LineIs(line: string, tree: string, lead: string, text: string, rest: string, tail: string) {
    && AllSpaces(lead) && AllSpaces(tail) && Trimmed(text) && line == lead + text + tail
    && text == "KDB-X-gates: " + tree + rest
  }

  lemma RestIff(rest: string, every: set<string>, a: Attested)
    ensures RestSays(rest, every, a) <==>
              if Strip(rest) == "" then a == Attested(every, All, All)
              else
                var words := Words(rest);
                && rest[0] == ' ' && words != [] && HOOKS_KEY <= words[0] && HooksOf(words[0]) == a.hooks
                && ReadFields(words[1..], (All, All)) == Some((a.qTests, a.qCoverage))
  {
    hide Words, Spells, AllFields, SaysOver, ReadFields, HooksOf, HooksListed, Strip, AllSpaces;
    BlankStrips(rest);
    if !AllSpaces(rest) {
      var words := Words(rest);
      WordsIff(rest, words);
      SomeText(rest);
      if words != [] {
        ReadFieldsIff(words[1..], (All, All), a.qTests, a.qCoverage);
        if HOOKS_KEY <= words[0] {
          var list := words[0][|HOOKS_KEY|..];
          assert words[0] == "hooks=" + list;
          HooksIff(words[0], list, a.hooks);
          if HooksOf(words[0]) == a.hooks && ReadFields(words[1..], (All, All)) == Some((a.qTests, a.qCoverage)) {
            assert Listing(rest, words, list, a);
          }
        }
      }
      if words', list :| Listing(rest, words', list, a) {
        WordsIff(rest, words');
        HooksIff(words'[0], list, a.hooks);
      }
    }
  }

  lemma BlankStrips(s: string)
    ensures Strip(s) == "" <==> AllSpaces(s)
  {
    hide IsSpace, Strip, AllSpaces;
    var lead, tail := StripParts(s);
    SpacesBoth(lead, tail);
    assert lead + "" + tail == lead + tail;
    if AllSpaces(s) { BlankHasNone(s); }
  }

  lemma SpacesBoth(a: string, b: string)
    requires AllSpaces(a) && AllSpaces(b)
    ensures AllSpaces(a + b)
  {
    hide IsSpace;
  }

  lemma BlankHasNone(s: string)
    requires AllSpaces(s)
    ensures Strip(s) == ""
  {
    hide IsSpace;
    assert LeadingSpaces(s) == |s|;
  }

  lemma SomeText(s: string)
    requires !AllSpaces(s)
    ensures s != ""
  {
  }

  /** TRAILERS. A line attests `a` of the tree exactly when, stripped, it is the prefix,
      the tree, and what says `a`. */
  lemma ParseIff(line: string, tree: string, every: set<string>, a: Attested)
    ensures ParseTrailer(line, tree, every) == Some(a) <==> LineSays(line, tree, every, a)
  {
    hide *;
    ParseIs(line, tree, every, a);
    var lead, tail := StripParts(line);
    var text := Strip(line);
    if PrefixOf(text, tree) {
      PrefixFits(text, tree);
      var rest := text[|PREFIX + tree|..];
      RestIff(rest, every, a);
      PrefixStands(text, tree, rest);
      if RestSays(rest, every, a) { SaysBy(line, tree, every, a, lead, text, rest, tail); }
    }
    if LineSays(line, tree, every, a) {
      var lead', text', rest', tail' := LineParts(line, tree, every, a);
      StripIs(line, text', lead', tail');
      PrefixCut(text', tree, rest');
    }
  }

  predicate PrefixOf(text: string, tree: string) { PREFIX + tree <= text }

  lemma PrefixFits(text: string, tree: string)
    requires PrefixOf(text, tree)
    ensures |PREFIX + tree| <= |text|
  {
  }

  lemma ParseIs(line: string, tree: string, every: set<string>, a: Attested)
    ensures ParseTrailer(line, tree, every) == Some(a) <==>
              var text := Strip(line);
              PrefixOf(text, tree) &&
              var rest := text[|PREFIX + tree|..];
              if Strip(rest) == "" then a == Attested(every, All, All)
              else
                var words := Words(rest);
                && rest[0] == ' ' && words != [] && HOOKS_KEY <= words[0] && HooksOf(words[0]) == a.hooks
                && ReadFields(words[1..], (All, All)) == Some((a.qTests, a.qCoverage))
  {
    hide Words, Strip, HooksOf, ReadFields;
    assert Strip("") == "" by { EmptyStrips(); }
  }

  lemma EmptyStrips()
    ensures Strip("") == ""
  {
  }

  lemma PrefixStands(text: string, tree: string, rest: string)
    requires PrefixOf(text, tree) && |PREFIX + tree| <= |text| && rest == text[|PREFIX + tree|..]
    ensures text == "KDB-X-gates: " + tree + rest && text != "" && text[0] == 'K'
  {
  }

  lemma PrefixCut(text: string, tree: string, rest: string)
    requires text == "KDB-X-gates: " + tree + rest
    ensures PrefixOf(text, tree) && |PREFIX + tree| <= |text| && text[|PREFIX + tree|..] == rest
  {
  }

  lemma SaysBy(line: string, tree: string, every: set<string>, a: Attested, lead: string, text: string, rest: string,
               tail: string)
    requires AllSpaces(lead) && AllSpaces(tail) && line == lead + text + tail && (text != "" ==> Trimmed(text))
    requires text != "" && text == "KDB-X-gates: " + tree + rest && RestSays(rest, every, a)
    ensures LineSays(line, tree, every, a)
  {
    hide RestSays, AllSpaces, Trimmed;
    assert LineIs(line, tree, lead, text, rest, tail);
  }

  lemma LineParts(line: string, tree: string, every: set<string>, a: Attested)
    returns (lead: string, text: string, rest: string, tail: string)
    requires LineSays(line, tree, every, a)
    ensures AllSpaces(lead) && AllSpaces(tail) && Trimmed(text) && line == lead + text + tail
    ensures text == "KDB-X-gates: " + tree + rest && RestSays(rest, every, a)
  {
    hide RestSays, AllSpaces, Trimmed;
    lead, text, rest, tail :| LineIs(line, tree, lead, text, rest, tail) && RestSays(rest, every, a);
  }
}
