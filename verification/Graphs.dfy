/** Finding a cycle depth first, twice: over a path passed down, and over a shared
    stack.  What is returned is a cycle, and when nothing is, there is none. */
module Graphs {
  import opened Options
  import opened Sequences

  /** Each node's successors, in the order they are tried. */
  type Graph = map<string, seq<string>>

  predicate Edge(g: Graph, a: string, b: string) {
    a in g && b in g[a]
  }

  ghost predicate Walk(g: Graph, w: seq<string>) {
    w != [] && forall i :: 0 <= i < |w| - 1 ==> Edge(g, w[i], w[i + 1])
  }

  /** A walk along real edges that comes back to where it began. */
  ghost predicate ClosedWalk(g: Graph, w: seq<string>) {
    Walk(g, w) && |w| >= 2 && w[0] == w[|w| - 1]
  }

  ghost predicate Acyclic(g: Graph) {
    forall w :: !ClosedWalk(g, w)
  }

  ghost function IndexIn(s: seq<string>, x: string): (i: nat)
    requires x in s
    ensures i < |s| && s[i] == x
  {
    var i :| 0 <= i < |s| && s[i] == x;
    i
  }

  /** Every edge out of a node of `order` leads to an earlier one. */
  ghost predicate Ordered(g: Graph, order: seq<string>) {
    && NoRepeat(order)
    && forall a, b :: a in order && Edge(g, a, b) ==> b in order && IndexIn(order, b) < IndexIn(order, a)
  }

  /** An order of all the nodes with each edge leading to an earlier one. */
  ghost predicate TopologicalOrder(g: Graph, order: seq<string>) {
    Ordered(g, order) && forall a :: a in g ==> a in order
  }

  // ---- an order leaves no room for a cycle

  lemma {:induction false} WalksDescend(g: Graph, order: seq<string>, w: seq<string>)
    requires Ordered(g, order) && Walk(g, w) && w[0] in order
    ensures w[|w| - 1] in order && IndexIn(order, w[|w| - 1]) + |w| - 1 <= IndexIn(order, w[0])
  {
    if |w| > 1 {
      assert Edge(g, w[0], w[1]);
      assert forall i :: 0 <= i < |w[1..]| ==> w[1..][i] == w[i + 1];
      WalksDescend(g, order, w[1..]);
    }
  }

  lemma OrderedIsAcyclic(g: Graph, order: seq<string>)
    requires TopologicalOrder(g, order)
    ensures Acyclic(g)
  {
    forall w ensures !ClosedWalk(g, w) {
      if ClosedWalk(g, w) {
        assert Edge(g, w[0], w[1]);
        WalksDescend(g, order, w);
      }
    }
  }

  // ---- and where there is no cycle there is an order

  /** Some edge from `a` stays among those left. */
  ghost predicate LeadsOn(g: Graph, left: set<string>, a: string) {
    exists b :: b in left && Edge(g, a, b)
  }

  lemma {:induction false} LongWalk(g: Graph, left: set<string>, start: string, n: nat) returns (w: seq<string>)
    requires start in left && forall a :: a in left ==> LeadsOn(g, left, a)
    ensures |w| == n + 1 && Walk(g, w) && w[0] == start && forall i :: 0 <= i < |w| ==> w[i] in left
    decreases n
  {
    if n == 0 {
      w := [start];
    } else {
      assert LeadsOn(g, left, start);
      var next :| next in left && Edge(g, start, next);
      hide LeadsOn;
      var rest := LongWalk(g, left, next, n - 1);
      w := [start] + rest;
      forall i | 0 <= i < |w| - 1 ensures Edge(g, w[i], w[i + 1]) {
        if i > 0 { assert Edge(g, rest[i - 1], rest[i]); }
      }
    }
  }

  /** More places than values: one value comes twice. */
  lemma {:induction false} Repeats(w: seq<string>, left: set<string>) returns (i: nat, j: nat)
    requires |w| > |left| && forall k :: 0 <= k < |w| ==> w[k] in left
    ensures i < j < |w| && w[i] == w[j]
    decreases |w|
  {
    var n := |w| - 1;
    if k: nat :| k < n && w[k] == w[n] {
      i, j := k, n;
    } else {
      var rest := w[..n];
      forall k | 0 <= k < |rest| ensures rest[k] in left - {w[n]} { assert rest[k] == w[k]; }
      i, j := Repeats(rest, left - {w[n]});
    }
  }

  lemma PartCloses(g: Graph, w: seq<string>, i: nat, j: nat)
    requires Walk(g, w) && i < j < |w| && w[i] == w[j]
    ensures ClosedWalk(g, w[i..j + 1])
  {
    var cycle := w[i..j + 1];
    forall k | 0 <= k < |cycle| - 1 ensures Edge(g, cycle[k], cycle[k + 1]) { assert Edge(g, w[i + k], w[i + k + 1]); }
  }

  /** Some node left leads to none of those left. */
  lemma LastLeft(g: Graph, left: set<string>) returns (x: string)
    requires Acyclic(g) && left != {}
    ensures x in left && !LeadsOn(g, left, x)
  {
    hide LeadsOn, Walk, ClosedWalk;
    if a :| a in left && !LeadsOn(g, left, a) {
      x := a;
    } else {
      x :| x in left;
      var w := LongWalk(g, left, x, |left|);
      var i, j := Repeats(w, left);
      PartCloses(g, w, i, j);
    }
  }

  lemma {:induction false} OrderFrom(g: Graph, order: seq<string>, nodes: set<string>) returns (full: seq<string>)
    requires Acyclic(g) && Ordered(g, order) && Within(g, nodes) && forall x :: x in order ==> x in nodes
    ensures TopologicalOrder(g, full) && forall x :: x in full ==> x in nodes
    decreases nodes - (set x | x in order)
  {
    var left := nodes - (set x | x in order);
    if left == {} {
      full := order;
      forall a | a in g ensures a in full { assert a in nodes && a !in left; }
    } else {
      var x := LastLeft(g, left);
      forall b | Edge(g, x, b) ensures b in order {
        assert b in nodes;
        assert b in left ==> LeadsOn(g, left, x);
      }
      OrderGrows(g, order, x);
      assert x in order + [x];
      full := OrderFrom(g, order + [x], nodes);
    }
  }

  /** A graph without a cycle has an order in which each edge leads to an earlier node. */
  lemma AcyclicIsOrdered(g: Graph)
    ensures Acyclic(g) <==> exists order :: TopologicalOrder(g, order)
  {
    if Acyclic(g) {
      assert Ordered(g, []);
      var full := OrderFrom(g, [], Nodes(g));
    }
    if order :| TopologicalOrder(g, order) { OrderedIsAcyclic(g, order); }
  }

  // ---- the colours

  const OPEN := 1
  const DONE := 2

  /** What the search has marked: the path is open, the order done, nothing else. */
  ghost predicate Marked(state: map<string, int>, path: seq<string>, order: seq<string>) {
    && (forall x :: x in path <==> x in state && state[x] == OPEN)
    && (forall x :: x in order <==> x in state && state[x] == DONE)
    && (forall x :: x in state ==> state[x] == OPEN || state[x] == DONE)
  }

  ghost predicate Searching(g: Graph, state: map<string, int>, path: seq<string>, order: seq<string>) {
    Marked(state, path, order) && NoRepeat(path) && (path != [] ==> Walk(g, path)) && Ordered(g, order)
  }

  /** Every node is known, keys and successors. */
  ghost predicate Within(g: Graph, nodes: set<string>) {
    forall a, b :: (a in g ==> a in nodes) && (Edge(g, a, b) ==> b in nodes)
  }

  /** The nodes of a graph. */
  ghost function Nodes(g: Graph): (nodes: set<string>)
    ensures Within(g, nodes)
  {
    g.Keys + set a, b | a in g && b in g[a] :: b
  }

  lemma WalkOn(g: Graph, path: seq<string>, x: string)
    requires path == [] || (Walk(g, path) && Edge(g, path[|path| - 1], x))
    ensures Walk(g, path + [x])
  {
  }

  lemma WalkFrom(g: Graph, path: seq<string>, k: nat)
    requires Walk(g, path) && k < |path|
    ensures Walk(g, path[k..])
  {
    assert forall i :: 0 <= i < |path[k..]| ==> path[k..][i] == path[k + i];
  }

  /** The node is open and leads back into the path: the rest of the path closes. */
  lemma PathCloses(g: Graph, path: seq<string>, k: nat, next: string)
    requires Walk(g, path) && k < |path| && path[k] == next && Edge(g, path[|path| - 1], next)
    ensures ClosedWalk(g, path[k..] + [next])
  {
    WalkFrom(g, path, k);
    WalkOn(g, path[k..], next);
  }

  /** A node may join the order once all its successors have. */
  lemma OrderGrows(g: Graph, order: seq<string>, x: string)
    requires Ordered(g, order) && x !in order && forall b :: Edge(g, x, b) ==> b in order
    ensures Ordered(g, order + [x])
  {
    var more := order + [x];
    assert NoRepeat(more);
    forall a, b | a in more && Edge(g, a, b) ensures b in more && IndexIn(more, b) < IndexIn(more, a) {
      SameIndex(order, x, b);
      if a in order {
        SameIndex(order, x, a);
      } else {
        assert a == x && IndexIn(more, a) == |order|;
      }
    }
  }

  lemma SameIndex(order: seq<string>, x: string, a: string)
    requires NoRepeat(order + [x]) && a in order
    ensures IndexIn(order + [x], a) == IndexIn(order, a)
  {
    var i, j := IndexIn(order + [x], a), IndexIn(order, a);
    assert (order + [x])[j] == a;
  }

  ghost predicate Later(state: map<string, int>, state': map<string, int>) {
    forall x :: x in state ==> x in state' && state'[x] == state[x]
  }

  /** Where `x` is in `path`. */
  method Position(path: seq<string>, x: string) returns (k: nat)
    requires x in path
    ensures k < |path| && path[k] == x && x !in path[..k]
  {
    k := 0;
    while path[k] != x
      invariant k < |path| && x !in path[..k] && x in path[k..]
      decreases |path| - k
    {
      assert path[..k + 1] == path[..k] + [path[k]];
      assert path[k..] == [path[k]] + path[k + 1..];
      k := k + 1;
    }
  }

  /** Colouring a node open, or done. */
  lemma Opened(g: Graph, state: map<string, int>, path: seq<string>, order: seq<string>, x: string)
    requires Searching(g, state, path, order) && x !in state && (path == [] || Edge(g, path[|path| - 1], x))
    ensures Searching(g, state[x := OPEN], path + [x], order)
  {
    WalkOn(g, path, x);
    assert x !in path;
  }

  lemma Closed(g: Graph, state: map<string, int>, path: seq<string>, order: seq<string>, x: string)
    requires Searching(g, state, path + [x], order) && forall b :: Edge(g, x, b) ==> b in state && state[b] == DONE
    ensures Searching(g, state[x := DONE], path, order + [x])
  {
    var whole := path + [x];
    assert whole[|path|] == x && x in whole;
    assert forall i :: 0 <= i < |path| ==> whole[i] == path[i];
    forall i | 0 <= i < |path| ensures path[i] != x {
      assert whole[i] != whole[|path|];
    }
    assert x !in order;
    OrderGrows(g, order, x);
    assert path != [] ==> Walk(g, path);
    var s' := state[x := DONE];
    forall y ensures y in path <==> y in s' && s'[y] == OPEN {
      assert y in whole <==> y in path || y == x;
    }
  }

  lemma WhatIsOpen(g: Graph, state: map<string, int>, path: seq<string>, order: seq<string>, x: string)
    requires Searching(g, state, path, order) && x in state
    ensures (state[x] == OPEN && x in path && Walk(g, path)) || (state[x] == DONE && x !in path)
  {
  }

  lemma Fewer(nodes: set<string>, before: map<string, int>, state: map<string, int>, node: string)
    requires node in nodes && node !in before && Later(before[node := OPEN], state)
    ensures nodes - state.Keys < nodes - before.Keys
  {
    assert node in before[node := OPEN];
    forall x | x in before ensures x in state {
      assert x in before[node := OPEN];
    }
    assert node in nodes - before.Keys && node !in nodes - state.Keys;
  }

  /** The search, with the path it is on passed down. */
  class PathSearch {
    const graph: Graph
    var state: map<string, int>
    ghost var order: seq<string>

    constructor (graph: Graph)
      ensures this.graph == graph && state == map[] && order == []
    {
      this.graph, state, order := graph, map[], [];
    }

    /** Either the closed walk that `node` leads to, or `node` is done. */
    method Visit(node: string, path: seq<string>) returns (found: seq<string>)
      requires node in Nodes(graph) && node !in state
      requires path != [] && path[|path| - 1] == node
      requires Searching(graph, state, path[..|path| - 1], order)
      requires (|path| > 1 ==> Edge(graph, path[|path| - 2], node))
      modifies this`state, this`order
      ensures found != [] ==> ClosedWalk(graph, found)
      ensures found == [] ==> Searching(graph, state, path[..|path| - 1], order) && node in state && state[node] == DONE
      ensures found == [] ==> Later(old(state), state)
      decreases Nodes(graph) - state.Keys
    {
      hide Ordered, Walk, ClosedWalk, NoRepeat, Acyclic, Searching, Marked, Nodes;
      Opened(graph, state, path[..|path| - 1], order, node);
      state := state[node := OPEN];
      assert path[..|path| - 1] + [node] == path;
      var succ := if node in graph then graph[node] else [];
      for i := 0 to |succ|
        invariant Searching(graph, state, path, order) && Later(old(state)[node := OPEN], state)
        invariant forall k :: 0 <= k < i ==> succ[k] in state && state[succ[k]] == DONE
      {
        var next := succ[i];
        assert Edge(graph, node, next);
        if next in state {
          WhatIsOpen(graph, state, path, order, next);
        }
        if next in state && state[next] == OPEN {
          var k := Position(path, next);
          PathCloses(graph, path, k, next);
          return path[k..] + [next];
        }
        if next !in state {
          assert (path + [next])[..|path|] == path;
          var before := state;
          Fewer(Nodes(graph), old(state), state, node);
          found := Visit(next, path + [next]);
          if found != [] {
            return;
          }
          assert forall k :: 0 <= k < i ==> succ[k] in before && state[succ[k]] == before[succ[k]];
        }
      }
      Closed(graph, state, path[..|path| - 1], order, node);
      state := state[node := DONE];
      order := order + [node];
      found := [];
    }
  }

  /** One cycle of the graph, or nothing: then an order of its nodes exists. */
  method Cycle(graph: Graph, starts: seq<string>) returns (found: seq<string>, ghost order: seq<string>)
    requires forall a :: a in graph <==> a in starts
    ensures found != [] ==> ClosedWalk(graph, found)
    ensures found == [] ==> TopologicalOrder(graph, order)
    ensures found == [] <==> Acyclic(graph)
  {
    var search := new PathSearch(graph);
    order := [];
    for i := 0 to |starts|
      invariant Searching(graph, search.state, [], search.order)
      invariant forall k :: 0 <= k < i ==> starts[k] in search.state
    {
      if starts[i] !in search.state {
        assert starts[i] in graph;
        assert [starts[i]][..0] == [];
        found := search.Visit(starts[i], [starts[i]]);
        if found != [] {
          return;
        }
      }
    }
    found, order := [], search.order;
    forall a | a in graph ensures a in order {
      assert a in starts;
      assert a in search.state && a !in [];
    }
    OrderedIsAcyclic(graph, order);
  }

  /** The same search over one stack that every call pushes and pops. */
  class StackSearch {
    const graph: Graph
    var state: map<string, int>
    var stack: seq<string>
    ghost var order: seq<string>

    constructor (graph: Graph)
      ensures this.graph == graph && state == map[] && stack == [] && order == []
    {
      this.graph, state, stack, order := graph, map[], [], [];
    }

    method Visit(node: string) returns (found: Option<seq<string>>)
      requires node in Nodes(graph) && node !in state
      requires Searching(graph, state, stack, order) && (stack != [] ==> Edge(graph, stack[|stack| - 1], node))
      modifies this`state, this`stack, this`order
      ensures found.Some? ==> ClosedWalk(graph, found.value)
      ensures found.None? ==>
                stack == old(stack) && Searching(graph, state, stack, order) && node in state && state[node] == DONE
      ensures found.None? ==> Later(old(state), state)
      decreases Nodes(graph) - state.Keys
    {
      hide Ordered, Walk, ClosedWalk, NoRepeat, Acyclic, Searching, Marked, Nodes;
      Opened(graph, state, stack, order, node);
      state := state[node := OPEN];
      stack := stack + [node];
      var succ := if node in graph then graph[node] else [];
      for i := 0 to |succ|
        invariant stack == old(stack) + [node]
        invariant Searching(graph, state, stack, order) && Later(old(state)[node := OPEN], state)
        invariant forall k :: 0 <= k < i ==> succ[k] in state && state[succ[k]] == DONE
      {
        var next := succ[i];
        assert Edge(graph, node, next);
        if next in state {
          WhatIsOpen(graph, state, stack, order, next);
        }
        if next in state && state[next] == OPEN {
          var k := Position(stack, next);
          PathCloses(graph, stack, k, next);
          return Some(stack[k..] + [next]);
        }
        if next !in state {
          ghost var before := state;
          Fewer(Nodes(graph), old(state), state, node);
          found := Visit(next);
          if found.Some? {
            return;
          }
          assert forall k :: 0 <= k < i ==> succ[k] in before && state[succ[k]] == before[succ[k]];
        }
      }
      Closed(graph, state, old(stack), order, node);
      stack := stack[..|stack| - 1];
      state := state[node := DONE];
      order := order + [node];
      found := None;
    }
  }

  method CycleOf(graph: Graph, starts: seq<string>) returns (found: Option<seq<string>>, ghost order: seq<string>)
    requires forall a :: a in graph <==> a in starts
    ensures found.Some? ==> ClosedWalk(graph, found.value)
    ensures found.None? ==> TopologicalOrder(graph, order)
    ensures found.None? <==> Acyclic(graph)
  {
    var search := new StackSearch(graph);
    order := [];
    for i := 0 to |starts|
      invariant search.stack == [] && Searching(graph, search.state, [], search.order)
      invariant forall k :: 0 <= k < i ==> starts[k] in search.state
    {
      if starts[i] !in search.state {
        assert starts[i] in graph;
        found := search.Visit(starts[i]);
        if found.Some? {
          return;
        }
      }
    }
    found, order := None, search.order;
    forall a | a in graph ensures a in order {
      assert a in starts;
      assert a in search.state && a !in [];
    }
    OrderedIsAcyclic(graph, order);
  }
}
