/** What two surfaces are compared by: of those under one name, the last. */
module IndexSays {
  import opened Surfaces
  import opened SurfaceDiff

  /** The last of `xs` under the name. */
  ghost predicate LastUnder<T(!new)>(key: T -> string, xs: seq<T>, name: string, x: T) {
    exists i :: 0 <= i < |xs| && xs[i] == x && key(x) == name && NoneLater(key, xs, i, name)
  }

  ghost predicate NoneLater<T(!new)>(key: T -> string, xs: seq<T>, i: int, name: string) {
    forall j :: i < j < |xs| && 0 <= j ==> key(xs[j]) != name
  }

  /** LISTS. Of several under one name the last counts. */
  lemma {:induction false} IndexBySays<T(!new)>(key: T -> string, xs: seq<T>, name: string, x: T)
    ensures name in IndexBy(key, xs) && IndexBy(key, xs)[name] == x <==> LastUnder(key, xs, name, x)
    ensures name in IndexBy(key, xs) <==> exists i :: 0 <= i < |xs| && key(xs[i]) == name
    decreases |xs|
  {
    if xs != [] {
      var n := |xs| - 1;
      IndexBySays(key, xs[..n], name, x);
      if LastUnder(key, xs[..n], name, x) && key(xs[n]) != name {
        var i :| 0 <= i < n && xs[..n][i] == x && key(x) == name && NoneLater(key, xs[..n], i, name);
        forall j | i < j < |xs| ensures key(xs[j]) != name { if j < n { assert xs[j] == xs[..n][j]; } }
        assert xs[i] == x && NoneLater(key, xs, i, name);
      }
      if LastUnder(key, xs, name, x) {
        var i :| 0 <= i < |xs| && xs[i] == x && key(x) == name && NoneLater(key, xs, i, name);
        if i < n {
          forall j | i < j < n ensures key(xs[..n][j]) != name { assert xs[j] == xs[..n][j]; }
          assert xs[..n][i] == x && NoneLater(key, xs[..n], i, name);
        } else {
          assert xs[n] == x;
        }
      }
      if key(xs[n]) == name { assert NoneLater(key, xs, n, name); }
      if i :| 0 <= i < |xs| && key(xs[i]) == name { assert i < n ==> xs[..n][i] == xs[i]; }
    }
  }

  /** A namespace's functions by their full names, in their order. */
  function Block(ns: string, es: seq<Entry>): (r: seq<(string, Entry)>)
    ensures |r| == |es|
    ensures forall i :: 0 <= i < |es| ==> r[i] == ("." + ns + "." + es[i].name, es[i])
  {
    seq(|es|, i requires 0 <= i < |es| => ("." + ns + "." + es[i].name, es[i]))
  }

  /** All functions by their full names, namespace after namespace. */
  function Named(fns: map<string, seq<Entry>>, nss: seq<string>): seq<(string, Entry)>
    requires forall ns :: ns in nss ==> ns in fns
  {
    if nss == [] then [] else Named(fns, nss[..|nss| - 1]) + Block(nss[|nss| - 1], fns[nss[|nss| - 1]])
  }

  function FirstOf(p: (string, Entry)): string { p.0 }

  /** The index of the pairs, as one map. */
  function Pairs(ps: seq<(string, Entry)>, so: map<string, Entry>): map<string, Entry> {
    if ps == [] then so else Pairs(ps[..|ps| - 1], so)[ps[|ps| - 1].0 := ps[|ps| - 1].1]
  }

  lemma {:induction false} BlockPairs(ns: string, es: seq<Entry>, so: map<string, Entry>)
    ensures IndexBlock(ns, es, so) == Pairs(Block(ns, es), so)
    decreases |es|
  {
    if es != [] {
      var n := |es| - 1;
      BlockPairs(ns, es[..n], so);
      assert Block(ns, es)[..n] == Block(ns, es[..n]);
    }
  }

  lemma {:induction false} PairsJoin(a: seq<(string, Entry)>, b: seq<(string, Entry)>, so: map<string, Entry>)
    ensures Pairs(a + b, so) == Pairs(b, Pairs(a, so))
    decreases |b|
  {
    if b == [] {
      assert a + b == a;
    } else {
      PairsJoin(a, b[..|b| - 1], so);
      assert (a + b)[..|a + b| - 1] == a + b[..|b| - 1];
    }
  }

  lemma {:induction false} AllPairs(fns: map<string, seq<Entry>>, nss: seq<string>)
    requires forall ns :: ns in nss ==> ns in fns
    ensures IndexAll(fns, nss) == Pairs(Named(fns, nss), map[])
    decreases |nss|
  {
    hide IndexBlock, Pairs, Block;
    if nss == [] {
      NoPairs();
    } else {
      var n := |nss| - 1;
      AllPairs(fns, nss[..n]);
      BlockPairs(nss[n], fns[nss[n]], IndexAll(fns, nss[..n]));
      PairsJoin(Named(fns, nss[..n]), Block(nss[n], fns[nss[n]]), map[]);
    }
  }

  lemma NoPairs()
    ensures Pairs([], map[]) == map[]
  {
  }

  lemma {:induction false} PairsIndex(ps: seq<(string, Entry)>, n: string)
    ensures n in Pairs(ps, map[]) <==> n in IndexBy(FirstOf, ps)
    ensures n in Pairs(ps, map[]) ==> IndexBy(FirstOf, ps)[n] == (n, Pairs(ps, map[])[n])
    decreases |ps|
  {
    if ps != [] { PairsIndex(ps[..|ps| - 1], n); }
  }

  /** FUNCTIONS. A full name is compared by the last function under it, the namespaces in
      their order. */
  lemma FnIndexSays(s: Surface, n: string, e: Entry)
    ensures n in FnIndex(s) && FnIndex(s)[n] == e
            <==> LastUnder(FirstOf, Named(s.functions, Sorted(s.functions.Keys)), n, (n, e))
  {
    hide LastUnder, IndexAll, Pairs, Named, IndexBy, Sorted;
    var nss := Sorted(s.functions.Keys);
    var ps := Named(s.functions, nss);
    AllPairs(s.functions, nss);
    PairsIndex(ps, n);
    IndexBySays(FirstOf, ps, n, (n, e));
  }
}
