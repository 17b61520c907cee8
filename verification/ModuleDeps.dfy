/** The module dependency gate: the edges the code makes against those allowed. */
module ModuleDeps {
  import opened Graphs

  type Dep = (string, string)

  datatype Problem =
    | Refused(dep: Dep)
    | NotAllowed(dep: Dep)
    | Unused(dep: Dep)
    | LeavesFoundation(dep: Dep)
    | AllowsRefused(dep: Dep)
    | Loop(path: seq<string>)
    | Duplicate(what: string)

  /** What the gate is run with: the code's edges, the rules, names defined twice. */
  datatype Tree = Tree(found: seq<Dep>, allowed: seq<Dep>, foundation: set<string>, forbidden: set<Dep>,
                       duplicates: seq<string>)

  ghost predicate Walks(t: Tree, w: seq<string>) {
    w != [] && forall i :: 0 <= i < |w| - 1 ==> (w[i], w[i + 1]) in t.found
  }

  /** The code makes exactly the allowed edges, none of them refused, none leaving
      the foundation, no way round, and no name defined twice. */
  ghost predicate Clean(t: Tree) {
    && (forall e :: e in t.found <==> e in t.allowed)
    && (forall e :: e in t.allowed ==> e !in t.forbidden && (e.0 in t.foundation ==> e.1 in t.foundation))
    && (forall w :: Walks(t, w) && |w| >= 2 ==> w[0] != w[|w| - 1])
    && t.duplicates == []
  }

  /** Nothing the foundation depends on, however far, is outside it. */
  lemma {:induction false} FoundationIsClosed(t: Tree, w: seq<string>)
    requires Clean(t) && Walks(t, w) && w[0] in t.foundation
    ensures forall x :: x in w ==> x in t.foundation
  {
    if |w| > 1 {
      assert (w[0], w[1]) in t.found;
      assert forall i :: 0 <= i < |w[1..]| ==> w[1..][i] == w[i + 1];
      FoundationIsClosed(t, w[1..]);
    }
    forall x | x in w ensures x in t.foundation {
      var i :| 0 <= i < |w| && w[i] == x;
      assert i > 0 ==> w[1..][i - 1] == x;
    }
  }

  ghost predicate Lists(g: Graph, deps: seq<Dep>) {
    && (forall a, b :: Edge(g, a, b) <==> (a, b) in deps)
    && (forall a :: a in g ==> g[a] != [])
  }

  method Successors(deps: seq<Dep>) returns (succ: Graph)
    ensures Lists(succ, deps)
  {
    succ := map[];
    for i := 0 to |deps|
      invariant Lists(succ, deps[..i])
    {
      var (a, b) := deps[i];
      ghost var before := succ;
      succ := succ[a := (if a in succ then succ[a] else []) + [b]];
      assert deps[..i + 1] == deps[..i] + [(a, b)];
      forall x, y ensures Edge(succ, x, y) <==> (x, y) in deps[..i + 1] {
        assert Edge(succ, x, y) <==> Edge(before, x, y) || (x, y) == (a, b);
      }
    }
    assert deps[..|deps|] == deps;
  }

  /** The edges of either side, each once per side that has it. */
  function Either(t: Tree): seq<Dep> {
    t.allowed + t.found
  }

  /** A way along `deps` that comes back to where it began. */
  ghost predicate GoesRound(deps: seq<Dep>, w: seq<string>) {
    |w| >= 2 && w[0] == w[|w| - 1] && forall i :: 0 <= i < |w| - 1 ==> (w[i], w[i + 1]) in deps
  }

  lemma LoopsAre(deps: seq<Dep>, g: Graph)
    requires Lists(g, deps)
    ensures forall w :: ClosedWalk(g, w) <==> GoesRound(deps, w)
  {
    forall w ensures ClosedWalk(g, w) <==> GoesRound(deps, w) {
      if ClosedWalk(g, w) {
        assert forall i :: 0 <= i < |w| - 1 ==> Edge(g, w[i], w[i + 1]);
      }
    }
  }

  /** One cycle in `deps`, or nothing exactly when there is none. */
  method LoopIn(deps: seq<Dep>) returns (loop: seq<string>)
    ensures loop != [] ==> GoesRound(deps, loop)
    ensures loop == [] <==> forall w :: !GoesRound(deps, w)
  {
    var succ := Successors(deps);
    var starts := Keys(deps, succ);
    ghost var order;
    loop, order := Cycle(succ, starts);
    LoopsAre(deps, succ);
  }

  /** The sources of `deps`. */
  method Keys(deps: seq<Dep>, succ: Graph) returns (keys: seq<string>)
    requires Lists(succ, deps)
    ensures forall a :: a in succ <==> a in keys
  {
    keys := [];
    for i := 0 to |deps|
      invariant forall a :: a in keys ==> a in succ
      invariant forall k :: 0 <= k < i ==> deps[k].0 in keys
    {
      assert Edge(succ, deps[i].0, deps[i].1);
      keys := keys + [deps[i].0];
    }
    forall a | a in succ ensures a in keys {
      assert Edge(succ, a, succ[a][0]);
      var k :| 0 <= k < |deps| && deps[k] == (a, succ[a][0]);
    }
  }

  /** What each problem says is so. */
  ghost predicate Wrong(t: Tree, p: Problem) {
    match p
    case Refused(e) => e in t.found && e in t.forbidden
    case NotAllowed(e) => e in t.found && e !in t.forbidden && e !in t.allowed
    case Unused(e) => e in t.allowed && e !in t.found
    case LeavesFoundation(e) => e in t.allowed && e.0 in t.foundation && e.1 !in t.foundation
    case AllowsRefused(e) => e in t.allowed && e in t.forbidden
    case Loop(w) => GoesRound(Either(t), w)
    case Duplicate(what) => what in t.duplicates
  }

  /** The tree is clean exactly when nothing can be said against it. */
  lemma CleanWhenNothingWrong(t: Tree)
    ensures Clean(t) <==> forall p :: !Wrong(t, p)
  {
    if Clean(t) {
      forall w ensures !GoesRound(Either(t), w) {
        assert GoesRound(Either(t), w) ==> Walks(t, w);
      }
    }
    if forall p :: !Wrong(t, p) {
      forall e ensures e in t.found <==> e in t.allowed {
        assert !Wrong(t, Refused(e)) && !Wrong(t, NotAllowed(e)) && !Wrong(t, Unused(e));
      }
      forall e | e in t.allowed ensures e !in t.forbidden && (e.0 in t.foundation ==> e.1 in t.foundation) {
        assert !Wrong(t, LeavesFoundation(e)) && !Wrong(t, AllowsRefused(e));
      }
      forall w | Walks(t, w) && |w| >= 2 ensures w[0] != w[|w| - 1] {
        assert !Wrong(t, Loop(w));
      }
      if t.duplicates != [] {
        assert Wrong(t, Duplicate(t.duplicates[0]));
      }
    }
  }

  /** Everything that is wrong and nothing else; of the ways round, one. */
  method Problems(t: Tree) returns (out: seq<Problem>)
    ensures forall p :: p in out ==> Wrong(t, p)
    ensures forall p :: Wrong(t, p) && !p.Loop? ==> p in out
    ensures forall w :: GoesRound(Either(t), w) ==> exists p :: p in out && p.Loop?
    ensures out == [] <==> Clean(t)
  {
    hide Clean, GoesRound;
    out := [];
    for i := 0 to |t.found|
      invariant forall p :: p in out ==> Wrong(t, p)
      invariant forall k :: 0 <= k < i && t.found[k] in t.forbidden ==> Refused(t.found[k]) in out
      invariant forall k :: 0 <= k < i && t.found[k] !in t.forbidden && t.found[k] !in t.allowed ==>
                  NotAllowed(t.found[k]) in out
    {
      if t.found[i] in t.forbidden {
        out := out + [Refused(t.found[i])];
      } else if t.found[i] !in t.allowed {
        out := out + [NotAllowed(t.found[i])];
      }
    }
    ghost var first := out;
    for i := 0 to |t.allowed|
      invariant first <= out && forall p :: p in out ==> Wrong(t, p)
      invariant forall k :: 0 <= k < i && t.allowed[k] !in t.found ==> Unused(t.allowed[k]) in out
    {
      if t.allowed[i] !in t.found {
        out := out + [Unused(t.allowed[i])];
      }
    }
    ghost var second := out;
    for i := 0 to |t.allowed|
      invariant second <= out && forall p :: p in out ==> Wrong(t, p)
      invariant forall k :: 0 <= k < i && t.allowed[k].0 in t.foundation && t.allowed[k].1 !in t.foundation ==>
                  LeavesFoundation(t.allowed[k]) in out
      invariant forall k :: 0 <= k < i && t.allowed[k] in t.forbidden ==> AllowsRefused(t.allowed[k]) in out
    {
      var e := t.allowed[i];
      if e.0 in t.foundation && e.1 !in t.foundation {
        out := out + [LeavesFoundation(e)];
      }
      if e in t.forbidden {
        out := out + [AllowsRefused(e)];
      }
    }
    ghost var third := out;
    var loop := LoopIn(Either(t));
    if loop != [] {
      out := out + [Loop(loop)];
      assert Loop(loop) in out;
    }
    ghost var fourth := out;
    for i := 0 to |t.duplicates|
      invariant fourth <= out && forall p :: p in out ==> Wrong(t, p)
      invariant forall k :: 0 <= k < i ==> Duplicate(t.duplicates[k]) in out
    {
      out := out + [Duplicate(t.duplicates[i])];
    }
    Kept(first, second);
    Kept(second, third);
    Kept(third, fourth);
    Kept(fourth, out);
    CleanWhenNothingWrong(t);
    forall p | Wrong(t, p) && !p.Loop? ensures p in out {
      AllFound(t, p, out);
    }
    assert out != [] ==> Wrong(t, out[0]);
  }

  lemma Kept(a: seq<Problem>, b: seq<Problem>)
    requires a <= b
    ensures forall p :: p in a ==> p in b
  {
  }

  lemma AllFound(t: Tree, p: Problem, out: seq<Problem>)
    requires Wrong(t, p) && !p.Loop?
    requires forall k :: 0 <= k < |t.found| && t.found[k] in t.forbidden ==> Refused(t.found[k]) in out
    requires forall k :: 0 <= k < |t.found| && t.found[k] !in t.forbidden && t.found[k] !in t.allowed ==>
               NotAllowed(t.found[k]) in out
    requires forall k :: 0 <= k < |t.allowed| && t.allowed[k] !in t.found ==> Unused(t.allowed[k]) in out
    requires forall k :: 0 <= k < |t.allowed| && t.allowed[k].0 in t.foundation && t.allowed[k].1 !in t.foundation ==>
               LeavesFoundation(t.allowed[k]) in out
    requires forall k :: 0 <= k < |t.allowed| && t.allowed[k] in t.forbidden ==> AllowsRefused(t.allowed[k]) in out
    requires forall k :: 0 <= k < |t.duplicates| ==> Duplicate(t.duplicates[k]) in out
    ensures p in out
  {
  }
}
