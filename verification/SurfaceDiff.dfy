/** Comparing two surfaces: what is reported, and when nothing is. */
module SurfaceDiff {
  import opened Surfaces
  import Shards

  /** Where something is, or that it is on both sides but not the same. */
  datatype How = OnlyA | OnlyB | Changed

  datatype Difference =
    | Rank(name: string)
    | Kind(name: string)
    | Params(name: string)
    | Function(name: string, how: How)
    | TableOf(name: string, how: How)
    | ProcessOf(name: string, how: How)
    | Variable(name: string, how: How)
    | TransportOf(name: string, how: How)

  // ---- by name: of two under one name the later one counts

  function FullName(ns: string, name: string): string {
    "." + ns + "." + name
  }

  function IndexBlock(ns: string, es: seq<Entry>, so: map<string, Entry>): map<string, Entry> {
    if es == [] then so else IndexBlock(ns, es[..|es| - 1], so)[FullName(ns, es[|es| - 1].name) := es[|es| - 1]]
  }

  function IndexAll(fns: map<string, seq<Entry>>, nss: seq<string>): map<string, Entry>
    requires forall ns :: ns in nss ==> ns in fns
  {
    if nss == [] then map[] else IndexBlock(nss[|nss| - 1], fns[nss[|nss| - 1]], IndexAll(fns, nss[..|nss| - 1]))
  }

  function FnIndex(s: Surface): map<string, Entry> {
    IndexAll(s.functions, Sorted(s.functions.Keys))
  }

  function IndexBy<T>(key: T -> string, xs: seq<T>): map<string, T> {
    if xs == [] then map[] else IndexBy(key, xs[..|xs| - 1])[key(xs[|xs| - 1]) := xs[|xs| - 1]]
  }

  function TransportName(t: Transport): string { t.name }

  function Members(xs: seq<string>): set<string> {
    set x | x in xs
  }

  // ---- what differs

  ghost predicate Apart<V>(a: map<string, V>, b: map<string, V>, n: string, how: How) {
    match how
    case OnlyA => n in a && n !in b
    case OnlyB => n !in a && n in b
    case Changed => n in a && n in b && a[n] != b[n]
  }

  ghost predicate Differs(a: Surface, b: Surface, d: Difference) {
    var fa, fb := FnIndex(a), FnIndex(b);
    match d
    case Rank(n) => n in fa && n in fb && fa[n].rank != fb[n].rank
    case Kind(n) => n in fa && n in fb && fa[n].kind != fb[n].kind
    case Params(n) => n in fa && n in fb && fa[n].rank == fb[n].rank && fa[n].params != fb[n].params
    case Function(n, how) => how != Changed && Apart(fa, fb, n, how)
    case TableOf(n, how) => Apart(a.tables, b.tables, n, how)
    case ProcessOf(n, how) => Apart(IndexBy(ProcessName, a.processes), IndexBy(ProcessName, b.processes), n, how)
    case Variable(n, how) => (how == OnlyA && n in a.variables && n !in b.variables) ||
      (how == OnlyB && n !in a.variables && n in b.variables)
    case TransportOf(n, how) => Apart(IndexBy(TransportName, a.transports), IndexBy(TransportName, b.transports), n,
                                      how)
  }

  // ---- the report

  method IndexFunctions(s: Surface) returns (idx: map<string, Entry>)
    ensures idx == FnIndex(s)
  {
    hide FullName, Sorted;
    var nss := Sorted(s.functions.Keys);
    idx := map[];
    for i := 0 to |nss|
      invariant idx == IndexAll(s.functions, nss[..i])
    {
      var es := s.functions[nss[i]];
      ghost var so := idx;
      for k := 0 to |es|
        invariant idx == IndexBlock(nss[i], es[..k], so)
      {
        assert es[..k + 1][..k] == es[..k];
        idx := idx[FullName(nss[i], es[k].name) := es[k]];
      }
      assert es[..|es|] == es;
      assert nss[..i + 1][..i] == nss[..i];
    }
    assert nss[..|nss|] == nss;
  }

  method IndexList<T>(key: T -> string, xs: seq<T>) returns (idx: map<string, T>)
    ensures idx == IndexBy(key, xs)
  {
    idx := map[];
    for i := 0 to |xs|
      invariant idx == IndexBy(key, xs[..i])
    {
      assert xs[..i + 1][..i] == xs[..i];
      idx := idx[key(xs[i]) := xs[i]];
    }
    assert xs[..|xs|] == xs;
  }

  /** Each name in order: where it is, or that the two sides differ. */
  method Compare<V(==)>(a: map<string, V>, b: map<string, V>) returns (out: seq<(string, How)>)
    ensures forall n, how :: (n, how) in out <==> Apart(a, b, n, how)
  {
    var names := Sorted(a.Keys + b.Keys);
    out := [];
    for i := 0 to |names|
      invariant forall n, how :: (n, how) in out <==> n in names[..i] && Apart(a, b, n, how)
    {
      var n := names[i];
      assert n in a.Keys + b.Keys && n !in names[..i];
      assert names[..i + 1] == names[..i] + [n];
      ghost var before := out;
      if n !in a {
        out := out + [(n, OnlyB)];
      } else if n !in b {
        out := out + [(n, OnlyA)];
      } else if a[n] != b[n] {
        out := out + [(n, Changed)];
      }
      forall m, how ensures (m, how) in out <==> m in names[..i + 1] && Apart(a, b, m, how) {
        assert (m, how) in out <==> (m, how) in before || (m == n && Apart(a, b, m, how));
      }
    }
    forall n, how ensures (n, how) in out <==> Apart(a, b, n, how) {
      if Apart(a, b, n, how) {
        assert n in a.Keys + b.Keys;
        assert n in names && names[..|names|] == names;
      }
    }
  }

  predicate EntryDiffers(fa: map<string, Entry>, fb: map<string, Entry>, d: Difference) {
    d.name in fa && d.name in fb &&
    match d
    case Rank(n) => fa[n].rank != fb[n].rank
    case Kind(n) => fa[n].kind != fb[n].kind
    case Params(n) => fa[n].rank == fb[n].rank && fa[n].params != fb[n].params
    case _ => false
  }

  /** Rank, kind and parameters of the functions both sides have. */
  method EntryLines(fa: map<string, Entry>, fb: map<string, Entry>) returns (out: seq<Difference>)
    ensures forall d :: d in out <==> EntryDiffers(fa, fb, d)
  {
    var both := Sorted(fa.Keys * fb.Keys);
    out := [];
    for i := 0 to |both|
      invariant forall d :: d in out <==> d.name in both[..i] && EntryDiffers(fa, fb, d)
    {
      var n := both[i];
      assert n in fa.Keys * fb.Keys && n !in both[..i];
      assert both[..i + 1] == both[..i] + [n];
      ghost var before := out;
      if fa[n].rank != fb[n].rank {
        out := out + [Rank(n)];
      } else if fa[n].params != fb[n].params {
        out := out + [Params(n)];
      }
      if fa[n].kind != fb[n].kind {
        out := out + [Kind(n)];
      }
      forall d ensures d in out <==> d.name in both[..i + 1] && EntryDiffers(fa, fb, d) {
        assert d in out <==> d in before || (d.name == n && EntryDiffers(fa, fb, d));
      }
    }
    assert both[..|both|] == both;
    forall d | EntryDiffers(fa, fb, d) ensures d.name in both {
      assert d.name in fa.Keys * fb.Keys;
    }
  }

  /** The functions one side alone has. */
  method FunctionLines(fa: map<string, Entry>, fb: map<string, Entry>) returns (out: seq<Difference>)
    ensures forall d :: d in out <==> d.Function? && d.how != Changed && Apart(fa, fb, d.name, d.how)
  {
    hide Apart;
    var found := Compare(fa, fb);
    out := [];
    for i := 0 to |found|
      invariant forall d :: d in out <==> d.Function? && d.how != Changed && (d.name, d.how) in found[..i]
    {
      assert found[..i + 1] == found[..i] + [found[i]];
      if found[i].1 != Changed {
        out := out + [Function(found[i].0, found[i].1)];
      }
    }
    assert found[..|found|] == found;
  }

  method TableLines(a: map<string, Table>, b: map<string, Table>) returns (out: seq<Difference>)
    ensures forall d :: d in out <==> d.TableOf? && Apart(a, b, d.name, d.how)
  {
    hide Apart;
    var found := Compare(a, b);
    out := [];
    for i := 0 to |found|
      invariant forall d :: d in out <==> d.TableOf? && (d.name, d.how) in found[..i]
    {
      assert found[..i + 1] == found[..i] + [found[i]];
      out := out + [TableOf(found[i].0, found[i].1)];
    }
    assert found[..|found|] == found;
  }

  method ProcessLines(a: map<string, Process>, b: map<string, Process>) returns (out: seq<Difference>)
    ensures forall d :: d in out <==> d.ProcessOf? && Apart(a, b, d.name, d.how)
  {
    hide Apart;
    var found := Compare(a, b);
    out := [];
    for i := 0 to |found|
      invariant forall d :: d in out <==> d.ProcessOf? && (d.name, d.how) in found[..i]
    {
      assert found[..i + 1] == found[..i] + [found[i]];
      out := out + [ProcessOf(found[i].0, found[i].1)];
    }
    assert found[..|found|] == found;
  }

  method TransportLines(a: map<string, Transport>, b: map<string, Transport>) returns (out: seq<Difference>)
    ensures forall d :: d in out <==> d.TransportOf? && Apart(a, b, d.name, d.how)
  {
    hide Apart;
    var found := Compare(a, b);
    out := [];
    for i := 0 to |found|
      invariant forall d :: d in out <==> d.TransportOf? && (d.name, d.how) in found[..i]
    {
      assert found[..i + 1] == found[..i] + [found[i]];
      out := out + [TransportOf(found[i].0, found[i].1)];
    }
    assert found[..|found|] == found;
  }

  predicate VariableDiffers(a: seq<string>, b: seq<string>, d: Difference) {
    d.Variable? && ((d.how == OnlyA && d.name in a && d.name !in b) || (d.how == OnlyB && d.name !in a && d.name in b))
  }

  method VariableLines(a: seq<string>, b: seq<string>) returns (out: seq<Difference>)
    ensures forall d :: d in out <==> VariableDiffers(a, b, d)
  {
    var onlyA, onlyB := Sorted(Members(a) - Members(b)), Sorted(Members(b) - Members(a));
    out := [];
    for i := 0 to |onlyA|
      invariant forall d :: d in out <==> d.Variable? && d.how == OnlyA && d.name in onlyA[..i]
    {
      assert onlyA[..i + 1] == onlyA[..i] + [onlyA[i]];
      out := out + [Variable(onlyA[i], OnlyA)];
    }
    assert onlyA[..|onlyA|] == onlyA;
    for i := 0 to |onlyB|
      invariant forall d :: d in out <==>
                d.Variable? && ((d.how == OnlyA && d.name in onlyA) || (d.how == OnlyB && d.name in onlyB[..i]))
    {
      assert onlyB[..i + 1] == onlyB[..i] + [onlyB[i]];
      out := out + [Variable(onlyB[i], OnlyB)];
    }
    assert onlyB[..|onlyB|] == onlyB;
    forall n ensures (n in onlyA <==> n in a && n !in b) && (n in onlyB <==> n in b && n !in a) {
      assert n in onlyA <==> n in Members(a) - Members(b);
      assert n in onlyB <==> n in Members(b) - Members(a);
    }
  }

  /** Everything that differs, and nothing else. */
  method DiffSurfaces(a: Surface, b: Surface) returns (lines: seq<Difference>)
    ensures forall d :: d in lines <==> Differs(a, b, d)
    ensures Clear(a) && Clear(b) ==> (lines == [] <==> SameContract(a, b))
  {
    hide FnIndex, IndexBy, Apart, Clear, SameContract;
    var fa := IndexFunctions(a);
    var fb := IndexFunctions(b);
    lines := EntryLines(fa, fb);
    var functions := FunctionLines(fa, fb);
    var tables := TableLines(a.tables, b.tables);
    var pa := IndexList(ProcessName, a.processes);
    var pb := IndexList(ProcessName, b.processes);
    var processes := ProcessLines(pa, pb);
    var variables := VariableLines(a.variables, b.variables);
    var ta := IndexList(TransportName, a.transports);
    var tb := IndexList(TransportName, b.transports);
    var transports := TransportLines(ta, tb);
    lines := lines + functions + tables + processes + variables + transports;
    if Clear(a) && Clear(b) {
      NothingDiffersWhenSame(a, b);
      if lines != [] {
        assert lines[0] in lines && Differs(a, b, lines[0]);
      }
    }
  }

  // ---- when nothing is reported

  ghost predicate NoRepeatBy<T(!new)>(key: T -> string, xs: seq<T>) {
    forall i, j :: 0 <= i < j < |xs| ==> key(xs[i]) != key(xs[j])
  }

  /** Well formed, and each name said once: in its namespace, and without a dot, or
      in its list. */
  ghost predicate Clear(s: Surface) {
    && WellFormed(s)
    && (forall ns :: ns in s.functions ==> NoRepeatBy(EntryName, s.functions[ns]))
    && (forall ns, i :: ns in s.functions && 0 <= i < |s.functions[ns]| ==> '.' !in s.functions[ns][i].name)
    && NoRepeatBy(ProcessName, s.processes) && NoRepeatBy(Itself, s.variables)
    && NoRepeatBy(TransportName, s.transports)
  }

  /** The same contract: the order transports are told in is no part of it. */
  ghost predicate SameContract(a: Surface, b: Surface) {
    && a.functions == b.functions && a.tables == b.tables && a.processes == b.processes && a.variables == b.variables
    && forall t :: t in a.transports <==> t in b.transports
  }

  // ---- names and indexes

  lemma DotsApart(a: string, x: string, b: string, y: string)
    requires FullName(a, x) == FullName(b, y) && '.' !in x && '.' !in y
    ensures a == b && x == y
  {
    var s := FullName(a, x);
    var i, j := 1 + |a|, 1 + |b|;
    assert s[i] == '.' && s[i + 1..] == x && s[1..i] == a;
    assert s[j] == '.' && s[j + 1..] == y && s[1..j] == b;
    assert forall k :: i < k < |s| ==> s[k] == x[k - i - 1] && s[k] != '.';
    assert forall k :: j < k < |s| ==> s[k] == y[k - j - 1] && s[k] != '.';
    assert i == j;
  }

  /** Entry `e` of the surface has this full name. */
  ghost predicate Names(fns: map<string, seq<Entry>>, n: string, ns: string, e: Entry) {
    ns in fns && e in fns[ns] && n == FullName(ns, e.name)
  }

  ghost predicate NamedIn(ns: string, es: seq<Entry>, n: string, e: Entry) {
    e in es && n == FullName(ns, e.name)
  }

  lemma {:induction false} BlockHolds(ns: string, es: seq<Entry>, so: map<string, Entry>, n: string)
    ensures var idx := IndexBlock(ns, es, so);
            && (n in so ==> n in idx)
            && (n in idx ==> (exists e :: NamedIn(ns, es, n, e) && idx[n] == e) || (n in so && idx[n] == so[n]))
            && (forall e :: NamedIn(ns, es, n, e) ==> n in idx)
  {
    if es != [] {
      var k := |es| - 1;
      BlockHolds(ns, es[..k], so, n);
      assert es == es[..k] + [es[k]];
      var idx, before := IndexBlock(ns, es, so), IndexBlock(ns, es[..k], so);
      forall e | NamedIn(ns, es, n, e) ensures n in idx {
        assert NamedIn(ns, es[..k], n, e) || e == es[k];
      }
      if n in idx {
        if n == FullName(ns, es[k].name) {
          assert NamedIn(ns, es, n, es[k]);
        } else if e :| NamedIn(ns, es[..k], n, e) && before[n] == e {
          assert NamedIn(ns, es, n, e);
        }
      }
    }
  }

  ghost predicate Entered(fns: map<string, seq<Entry>>, nss: seq<string>, n: string, e: Entry) {
    exists ns :: ns in nss && Names(fns, n, ns, e)
  }

  lemma {:induction false} IndexHolds(fns: map<string, seq<Entry>>, nss: seq<string>, n: string)
    requires forall ns :: ns in nss ==> ns in fns
    ensures n in IndexAll(fns, nss) ==> Entered(fns, nss, n, IndexAll(fns, nss)[n])
    ensures forall e :: Entered(fns, nss, n, e) ==> n in IndexAll(fns, nss)
  {
    if nss != [] {
      var k := |nss| - 1;
      var before := IndexAll(fns, nss[..k]);
      IndexHolds(fns, nss[..k], n);
      assert nss == nss[..k] + [nss[k]];
      BlockHolds(nss[k], fns[nss[k]], before, n);
      var idx := IndexAll(fns, nss);
      if n in idx {
        if e :| NamedIn(nss[k], fns[nss[k]], n, e) && idx[n] == e {
          assert Names(fns, n, nss[k], e);
        } else {
          var ns :| ns in nss[..k] && Names(fns, n, ns, before[n]);
          assert ns in nss;
        }
      }
      forall e | Entered(fns, nss, n, e) ensures n in idx {
        var ns :| ns in nss && Names(fns, n, ns, e);
        if ns in nss[..k] {
          assert Entered(fns, nss[..k], n, e);
        } else {
          assert NamedIn(nss[k], fns[nss[k]], n, e);
        }
      }
    }
  }

  /** In a clear surface a full name is one entry's. */
  lemma OneEntry(s: Surface, n: string, ns: string, e: Entry, ns': string, e': Entry)
    requires Clear(s) && Names(s.functions, n, ns, e) && Names(s.functions, n, ns', e')
    ensures ns == ns' && e == e'
  {
    hide WellFormed;
    var i :| 0 <= i < |s.functions[ns]| && s.functions[ns][i] == e;
    var j :| 0 <= j < |s.functions[ns']| && s.functions[ns'][j] == e';
    DotsApart(ns, e.name, ns', e'.name);
    assert EntryName(e) == EntryName(e');
  }

  lemma IndexIs(s: Surface, n: string, ns: string, e: Entry)
    requires Clear(s) && Names(s.functions, n, ns, e)
    ensures n in FnIndex(s) && FnIndex(s)[n] == e
  {
    var nss := Sorted(s.functions.Keys);
    IndexHolds(s.functions, nss, n);
    assert ns in nss;
    assert Entered(s.functions, nss, n, e);
    hide Clear, IndexAll;
    var ns' :| ns' in nss && Names(s.functions, n, ns', FnIndex(s)[n]);
    OneEntry(s, n, ns, e, ns', FnIndex(s)[n]);
  }

  /** One side's entry is among the other side's, when nothing is reported of it. */
  lemma EntryCarries(a: Surface, b: Surface, ns: string, e: Entry)
    requires Clear(a) && Clear(b) && ns in a.functions && e in a.functions[ns]
    requires forall d :: !Differs(a, b, d)
    ensures ns in b.functions && e in b.functions[ns]
  {
    hide Clear, Differs, FnIndex;
    var n := FullName(ns, e.name);
    assert Names(a.functions, n, ns, e);
    IndexIs(a, n, ns, e);
    SameIndexed(a, b, n);
    Indexed(b, n);
    var e' := FnIndex(b)[n];
    var ns' :| ns' in b.functions && Names(b.functions, n, ns', e');
    Undotted(a, ns, e);
    Undotted(b, ns', e');
    DotsApart(ns, e.name, ns', e'.name);
    assert e == e';
  }

  lemma Indexed(s: Surface, n: string)
    requires n in FnIndex(s)
    ensures exists ns :: ns in s.functions && Names(s.functions, n, ns, FnIndex(s)[n])
  {
    var nss := Sorted(s.functions.Keys);
    IndexHolds(s.functions, nss, n);
    hide IndexAll, Names;
    var ns :| ns in nss && Names(s.functions, n, ns, FnIndex(s)[n]);
    assert ns in s.functions;
  }

  lemma SameIndexed(a: Surface, b: Surface, n: string)
    requires n in FnIndex(a) && forall d :: !Differs(a, b, d)
    ensures n in FnIndex(b)
    ensures var e, e' := FnIndex(a)[n], FnIndex(b)[n];
            e.rank == e'.rank && e.kind == e'.kind && e.params == e'.params
  {
    hide FnIndex;
    assert !Differs(a, b, Function(n, OnlyA));
    assert !Differs(a, b, Rank(n)) && !Differs(a, b, Kind(n)) && !Differs(a, b, Params(n));
  }

  lemma Undotted(s: Surface, ns: string, e: Entry)
    requires Clear(s) && ns in s.functions && e in s.functions[ns]
    ensures '.' !in e.name
  {
  }

  // ---- sorted lists with the same members

  lemma {:induction false} OneList<T(!new)>(key: T -> string, a: seq<T>, b: seq<T>)
    requires InOrder(key, a) && InOrder(key, b) && NoRepeatBy(key, a) && NoRepeatBy(key, b)
    requires forall x :: x in a <==> x in b
    ensures a == b
  {
    EmptyTogether(a, b);
    if a != [] {
      assert a[0] in b && b[0] in a;
      var i :| 0 <= i < |b| && b[i] == a[0];
      var j :| 0 <= j < |a| && a[j] == b[0];
      Shards.NamesCompare(key(a[0]), key(b[0]));
      assert a[0] == b[0];
      Rest(key, a);
      Rest(key, b);
      OneList(key, a[1..], b[1..]);
      assert a == [a[0]] + a[1..] && b == [b[0]] + b[1..];
    }
  }

  lemma EmptyTogether<T(!new)>(a: seq<T>, b: seq<T>)
    requires forall x :: x in a <==> x in b
    ensures a == [] <==> b == []
  {
    if a != [] {
      assert a[0] in b;
    }
    if b != [] {
      assert b[0] in a;
    }
  }

  lemma Rest<T(!new)>(key: T -> string, a: seq<T>)
    requires a != [] && InOrder(key, a) && NoRepeatBy(key, a)
    ensures InOrder(key, a[1..]) && NoRepeatBy(key, a[1..]) && forall x :: x in a[1..] <==> x in a && x != a[0]
  {
    assert a == [a[0]] + a[1..];
    assert forall i :: 0 <= i < |a[1..]| ==> a[1..][i] == a[i + 1] && key(a[0]) != key(a[i + 1]);
  }

  lemma {:induction false} IndexByIs<T(!new)>(key: T -> string, xs: seq<T>, n: string)
    requires NoRepeatBy(key, xs)
    ensures n in IndexBy(key, xs) ==> IndexBy(key, xs)[n] in xs && key(IndexBy(key, xs)[n]) == n
    ensures forall x :: x in xs && key(x) == n ==> n in IndexBy(key, xs) && IndexBy(key, xs)[n] == x
  {
    if xs != [] {
      var k := |xs| - 1;
      assert xs == xs[..k] + [xs[k]];
      assert forall i :: 0 <= i < k ==> xs[..k][i] == xs[i] && key(xs[i]) != key(xs[k]);
      IndexByIs(key, xs[..k], n);
    }
  }

  /** Two lists with no name twice have one index exactly when they have the same members. */
  lemma SameIndex<T(!new)>(key: T -> string, a: seq<T>, b: seq<T>)
    requires NoRepeatBy(key, a) && NoRepeatBy(key, b)
    ensures IndexBy(key, a) == IndexBy(key, b) <==> forall x :: x in a <==> x in b
  {
    forall x ensures x in a <==> key(x) in IndexBy(key, a) && IndexBy(key, a)[key(x)] == x {
      IndexByIs(key, a, key(x));
    }
    forall x ensures x in b <==> key(x) in IndexBy(key, b) && IndexBy(key, b)[key(x)] == x {
      IndexByIs(key, b, key(x));
    }
    if forall x :: x in a <==> x in b {
      forall n
        ensures (n in IndexBy(key, a) <==> n in IndexBy(key, b))
        ensures (n in IndexBy(key, a) ==> IndexBy(key, a)[n] == IndexBy(key, b)[n])
      {
        IndexByIs(key, a, n);
        IndexByIs(key, b, n);
      }
    }
  }

  /** Nothing is apart exactly when two maps are one. */
  lemma NothingApart<V(!new)>(a: map<string, V>, b: map<string, V>)
    ensures a == b <==> forall n, how :: !Apart(a, b, n, how)
  {
    if forall n, how :: !Apart(a, b, n, how) {
      forall n ensures (n in a <==> n in b) && (n in a ==> a[n] == b[n]) {
        assert !Apart(a, b, n, OnlyA) && !Apart(a, b, n, OnlyB) && !Apart(a, b, n, Changed);
      }
    }
  }

  // ---- the claim

  lemma FunctionsSame(a: Surface, b: Surface)
    requires Clear(a) && Clear(b) && forall d :: !Differs(a, b, d) && !Differs(b, a, d)
    ensures a.functions == b.functions
  {
    hide Differs, FnIndex;
    forall ns | ns in a.functions ensures ns in b.functions && a.functions[ns] == b.functions[ns] {
      var es := a.functions[ns];
      assert es != [];
      EntryCarries(a, b, ns, es[0]);
      forall e ensures e in es <==> e in b.functions[ns] {
        if e in es {
          EntryCarries(a, b, ns, e);
        }
        if e in b.functions[ns] {
          EntryCarries(b, a, ns, e);
        }
      }
      OneList(EntryName, es, b.functions[ns]);
    }
    forall ns | ns in b.functions ensures ns in a.functions {
      assert b.functions[ns] != [];
      EntryCarries(b, a, ns, b.functions[ns][0]);
    }
  }

  function Mirror(d: Difference): Difference {
    match d
    case Function(n, how) => Function(n, Other(how))
    case TableOf(n, how) => TableOf(n, Other(how))
    case ProcessOf(n, how) => ProcessOf(n, Other(how))
    case Variable(n, how) => Variable(n, Other(how))
    case TransportOf(n, how) => TransportOf(n, Other(how))
    case _ => d
  }

  function Other(how: How): How {
    match how
    case OnlyA => OnlyB
    case OnlyB => OnlyA
    case Changed => Changed
  }

  /** What differs one way round differs the other way round. */
  lemma DiffersBothWays(a: Surface, b: Surface, d: Difference)
    ensures Differs(a, b, d) <==> Differs(b, a, Mirror(d))
  {
    hide FnIndex, IndexBy;
  }

  /** Nothing is reported exactly when the two contracts are the same. */
  lemma NothingDiffersWhenSame(a: Surface, b: Surface)
    requires Clear(a) && Clear(b)
    ensures (forall d :: !Differs(a, b, d)) <==> SameContract(a, b)
  {
    NothingApart(a.tables, b.tables);
    NothingApart(IndexBy(ProcessName, a.processes), IndexBy(ProcessName, b.processes));
    NothingApart(IndexBy(TransportName, a.transports), IndexBy(TransportName, b.transports));
    SameIndex(ProcessName, a.processes, b.processes);
    SameIndex(TransportName, a.transports, b.transports);
    if forall d :: !Differs(a, b, d) {
      forall d ensures !Differs(b, a, d) {
        DiffersBothWays(b, a, d);
      }
      FunctionsSame(a, b);
      RestSame(a, b);
    }
    if SameContract(a, b) {
      SameNotApart(a, b);
    }
  }

  lemma SameNotApart(a: Surface, b: Surface)
    requires a.functions == b.functions && a.tables == b.tables && a.variables == b.variables
    requires IndexBy(ProcessName, a.processes) == IndexBy(ProcessName, b.processes)
    requires IndexBy(TransportName, a.transports) == IndexBy(TransportName, b.transports)
    ensures forall d :: !Differs(a, b, d)
  {
    assert FnIndex(a) == FnIndex(b);
    hide FnIndex, IndexBy;
  }

  lemma RestSame(a: Surface, b: Surface)
    requires Clear(a) && Clear(b) && forall d :: !Differs(a, b, d)
    ensures a.tables == b.tables && a.processes == b.processes && a.variables == b.variables
    ensures forall t :: t in a.transports <==> t in b.transports
  {
    hide FnIndex, IndexBy, GoodFunctions;
    forall n, how ensures !Apart(a.tables, b.tables, n, how) {
      assert !Differs(a, b, TableOf(n, how));
    }
    NothingApart(a.tables, b.tables);
    forall n, how ensures !Apart(IndexBy(ProcessName, a.processes), IndexBy(ProcessName, b.processes), n, how) {
      assert !Differs(a, b, ProcessOf(n, how));
    }
    NothingApart(IndexBy(ProcessName, a.processes), IndexBy(ProcessName, b.processes));
    SameIndex(ProcessName, a.processes, b.processes);
    OneList(ProcessName, a.processes, b.processes);
    forall n ensures n in a.variables <==> n in b.variables {
      assert !Differs(a, b, Variable(n, OnlyA)) && !Differs(a, b, Variable(n, OnlyB));
    }
    OneList(Itself, a.variables, b.variables);
    forall n, how ensures !Apart(IndexBy(TransportName, a.transports), IndexBy(TransportName, b.transports), n, how) {
      assert !Differs(a, b, TransportOf(n, how));
    }
    NothingApart(IndexBy(TransportName, a.transports), IndexBy(TransportName, b.transports));
    SameIndex(TransportName, a.transports, b.transports);
  }
}
