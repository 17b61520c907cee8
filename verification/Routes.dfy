/** Splitting a file's statements over modules without reordering them: the chunks
    cover the lines, and the groups install in the order they were declared. */
module Routes {
  import opened Options
  import opened Sequences

  // ---- chunks

  /** A statement's first and last line, counted from 1. */
  datatype Node = Node(first: nat, last: nat)

  datatype Chunk = Chunk(node: Node, text: string, start: nat)

  function Text(lines: seq<string>): string {
    if lines == [] then "" else lines[0] + Text(lines[1..])
  }

  function Texts(chunks: seq<Chunk>): string {
    if chunks == [] then "" else Texts(chunks[..|chunks| - 1]) + chunks[|chunks| - 1].text
  }

  lemma {:induction false} TextOfBoth(a: seq<string>, b: seq<string>)
    ensures Text(a + b) == Text(a) + Text(b)
  {
    if a == [] {
      assert a + b == b;
    } else {
      assert (a + b)[1..] == a[1..] + b;
      TextOfBoth(a[1..], b);
    }
  }

  /** Where statement `i`'s chunk starts: where the one before ended. */
  function Before(nodes: seq<Node>, i: nat, start: nat): nat
    requires i <= |nodes|
  {
    if i == 0 then start else nodes[i - 1].last
  }

  ghost predicate Follows(nodes: seq<Node>, i: nat, start: nat)
    requires i < |nodes|
  {
    nodes[i].first - 1 >= Before(nodes, i, start)
  }

  /** The statements come one after the other, from line `start` on. */
  ghost predicate InOrder(nodes: seq<Node>, start: nat) {
    forall i :: 0 <= i < |nodes| ==> Follows(nodes, i, start)
  }

  lemma TextsGrow(chunks: seq<Chunk>, chunk: Chunk, lines: seq<string>, start: nat, prev: nat, last: nat)
    requires start <= prev <= last <= |lines| && Texts(chunks) == Text(lines[start..prev])
    requires chunk.text == Text(lines[prev..last])
    ensures Texts(chunks + [chunk]) == Text(lines[start..last])
  {
    TextOfBoth(lines[start..prev], lines[prev..last]);
    assert lines[start..prev] + lines[prev..last] == lines[start..last];
    assert (chunks + [chunk])[..|chunks|] == chunks;
  }

  /** Each statement with everything between it and the one before: nothing of
      the lines is lost, repeated or moved. */
  method ChunksOf(lines: seq<string>, nodes: seq<Node>, start: nat) returns (r: Option<seq<Chunk>>)
    requires start <= |lines| && forall i :: 0 <= i < |nodes| ==> 1 <= nodes[i].first <= nodes[i].last <= |lines|
    ensures r.Some? <==> InOrder(nodes, start)
    ensures r.Some? ==> |r.value| == |nodes| && start <= Before(nodes, |nodes|, start) <= |lines|
    ensures r.Some? ==> Texts(r.value) == Text(lines[start..Before(nodes, |nodes|, start)])
    ensures r.Some? ==> forall i :: 0 <= i < |nodes| ==> Holds(lines, nodes[i], r.value[i])
  {
    hide Text, Texts;
    var out := [];
    var prev := start;
    assert Texts([]) == Text(lines[start..start]) by {
      NoText(lines[start..start]);
    }
    for i := 0 to |nodes|
      invariant start <= prev <= |lines| && prev == Before(nodes, i, start) && |out| == i
      invariant forall k :: 0 <= k < i ==> Follows(nodes, k, start)
      invariant Texts(out) == Text(lines[start..prev])
      invariant forall k :: 0 <= k < i ==> Holds(lines, nodes[k], out[k])
    {
      var node := nodes[i];
      if node.first - 1 < prev {
        assert !Follows(nodes, i, start);
        return None;
      }
      var chunk := Chunk(node, Text(lines[prev..node.last]), prev);
      TextsGrow(out, chunk, lines, start, prev, node.last);
      out := out + [chunk];
      prev := node.last;
    }
    r := Some(out);
  }

  lemma NoText(lines: seq<string>)
    requires |lines| == 0
    ensures Texts([]) == Text(lines)
  {
  }

  /** The chunk is its statement's, from some line at or above it to its last. */
  ghost predicate Holds(lines: seq<string>, node: Node, chunk: Chunk) {
    chunk.node == node && chunk.start < node.first <= node.last <= |lines| &&
      chunk.text == Text(lines[chunk.start..node.last])
  }

  // ---- groups

  /** The area each statement goes to, or none when it stays where it is. */
  type Areas = seq<Option<string>>

  /** The statements that move, in the order they were declared. */
  function Moved(areas: Areas): seq<nat> {
    if areas == [] then []
    else
      var n := |areas| - 1;
      Moved(areas[..n]) + if areas[n].Some? then [n] else []
  }

  /** An area's statements, in the order they were declared. */
  function Group(areas: Areas, area: string): seq<nat> {
    if areas == [] then []
    else
      var n := |areas| - 1;
      Group(areas[..n], area) + if areas[n] == Some(area) then [n] else []
  }

  /** What installing the areas in `order` installs, statement by statement. */
  function Installed(areas: Areas, order: seq<string>): seq<nat> {
    if order == [] then []
    else Installed(areas, order[..|order| - 1]) + Group(areas, order[|order| - 1])
  }

  /** No other area's statement lies between two of one area. */
  ghost predicate Contiguous(areas: Areas) {
    forall i, j, k :: 0 <= i < j < k < |areas| && areas[i].Some? && areas[j].Some? && areas[i] == areas[k] ==>
        areas[j] == areas[i]
  }

  ghost predicate Names(areas: Areas, order: seq<string>) {
    forall a :: a in order <==> exists i :: 0 <= i < |areas| && areas[i] == Some(a)
  }

  /** The last statement that moves goes to the last area of the order. */
  ghost predicate EndsIn(areas: Areas, order: seq<string>) {
    order != [] ==> exists m: nat :: LastMoved(areas, m) && areas[m] == Some(order[|order| - 1])
  }

  ghost predicate LastMoved(areas: Areas, m: nat) {
    m < |areas| && areas[m].Some? && forall j :: m < j < |areas| ==> areas[j].None?
  }

  lemma GroupStep(areas: Areas, area: string)
    requires areas != []
    ensures Group(areas, area)
            == Group(areas[..|areas| - 1], area) + if areas[|areas| - 1] == Some(area) then [|areas| - 1] else []
  {
  }

  lemma MovedStep(areas: Areas)
    requires areas != []
    ensures Moved(areas) == Moved(areas[..|areas| - 1]) + if areas[|areas| - 1].Some? then [|areas| - 1] else []
  {
  }

  lemma InstalledStep(areas: Areas, order: seq<string>, a: string)
    ensures Installed(areas, order + [a]) == Installed(areas, order) + Group(areas, a)
  {
    assert (order + [a])[..|order|] == order;
  }

  /** One more statement, of an area not in `order`, changes nothing of theirs. */
  lemma {:induction false} OthersInstalled(areas: Areas, order: seq<string>)
    requires areas != [] && (areas[|areas| - 1].Some? ==> areas[|areas| - 1].value !in order)
    ensures Installed(areas, order) == Installed(areas[..|areas| - 1], order)
  {
    if order != [] {
      hide Group;
      var rest, a := order[..|order| - 1], order[|order| - 1];
      assert order == rest + [a] && a in order;
      OthersInstalled(areas, rest);
      GroupStep(areas, a);
      InstalledStep(areas, rest, a);
      InstalledStep(areas[..|areas| - 1], rest, a);
    }
  }

  lemma {:induction false} EmptyGroup(areas: Areas, area: string)
    requires forall i :: 0 <= i < |areas| ==> areas[i] != Some(area)
    ensures Group(areas, area) == []
  {
    if areas != [] {
      EmptyGroup(areas[..|areas| - 1], area);
    }
  }

  /** The statement goes to the area the order ends in. */
  lemma SameArea(areas: Areas, order: seq<string>)
    requires areas != [] && order != [] && areas[|areas| - 1] == Some(order[|order| - 1]) && NoRepeat(order)
    requires Installed(areas[..|areas| - 1], order) == Moved(areas[..|areas| - 1])
    ensures Installed(areas, order) == Moved(areas)
  {
    var rest, a := order[..|order| - 1], order[|order| - 1];
    var before := areas[..|areas| - 1];
    LastIsNew(order);
    hide Group, Moved, Installed, NoRepeat;
    OthersInstalled(areas, rest);
    GroupStep(areas, a);
    MovedStep(areas);
    Regroup(Installed(before, rest), Group(before, a), Moved(before), |areas| - 1) by {
      InstalledStep(before, rest, a);
    }
    InstalledStep(areas, rest, a);
  }

  lemma LastIsNew(order: seq<string>)
    requires order != [] && NoRepeat(order)
    ensures order[|order| - 1] !in order[..|order| - 1] && order == order[..|order| - 1] + [order[|order| - 1]]
  {
  }

  lemma Regroup(a: seq<nat>, b: seq<nat>, both: seq<nat>, n: nat)
    requires a + b == both
    ensures a + (b + [n]) == both + [n]
  {
  }

  /** The statement opens a new area. */
  lemma NewArea(areas: Areas, order: seq<string>)
    requires areas != [] && areas[|areas| - 1].Some? && areas[|areas| - 1].value !in order
    requires Names(areas[..|areas| - 1], order) && Installed(areas[..|areas| - 1], order) == Moved(areas[..|areas| - 1])
    ensures Installed(areas, order + [areas[|areas| - 1].value]) == Moved(areas)
  {
    var n := |areas| - 1;
    var a := areas[n].value;
    EmptyGroup(areas[..n], a);
    hide Group, Moved, Installed, Names;
    OthersInstalled(areas, order);
    InstalledStep(areas, order, a);
    GroupStep(areas, a);
    MovedStep(areas);
  }

  lemma NamesGrow(areas: Areas, order: seq<string>, a: string)
    requires areas != [] && areas[|areas| - 1] == Some(a) && Names(areas[..|areas| - 1], order)
    ensures Names(areas, if a in order then order else order + [a])
  {
    var more := if a in order then order else order + [a];
    var n := |areas| - 1;
    forall x ensures x in more <==> exists i :: 0 <= i < |areas| && areas[i] == Some(x) {
      if x in order {
        var i :| 0 <= i < n && areas[..n][i] == Some(x);
        assert areas[i] == Some(x);
      }
      if i :| 0 <= i < |areas| && areas[i] == Some(x) {
        assert i < n ==> areas[..n][i] == Some(x);
      }
    }
  }

  /** The order the groups install in: refused when an area would come back. */
  method InstallOrder(areas: Areas) returns (r: Option<seq<string>>)
    ensures r.Some? <==> Contiguous(areas)
    ensures r.Some? ==> NoRepeat(r.value) && Installed(areas, r.value) == Moved(areas)
  {
    hide Contiguous, NoRepeat, Names, EndsIn, Installed, Moved, LastMoved;
    var order: seq<string> := [];
    NothingYet();
    assert areas[..0] == [];
    for i := 0 to |areas|
      invariant Contiguous(areas[..i]) && NoRepeat(order) && Names(areas[..i], order) && EndsIn(areas[..i], order)
      invariant Installed(areas[..i], order) == Moved(areas[..i])
    {
      ghost var before, now := areas[..i], areas[..i + 1];
      assert now[..i] == before;
      if areas[i].Some? && (order == [] || order[|order| - 1] != areas[i].value) {
        if areas[i].value in order {
          ComesBack(areas, i, order);
          return None;
        }
        NewArea(now, order);
        NamesGrow(now, order, areas[i].value);
        StillContiguous(now, order);
        EndsNow(now, order + [areas[i].value]);
        OneMoreName(order, areas[i].value);
        order := order + [areas[i].value];
      } else if areas[i].Some? {
        SameArea(now, order);
        NamesGrow(now, order, areas[i].value);
        StillContiguous(now, order);
        EndsNow(now, order);
      } else {
        StaysPut(now, order);
      }
    }
    assert areas[..|areas|] == areas;
    r := Some(order);
  }

  lemma NothingYet()
    ensures Contiguous([]) && NoRepeat([]) && Names([], []) && EndsIn([], []) && Installed([], []) == Moved([])
  {
  }

  lemma EndsNow(areas: Areas, order: seq<string>)
    requires areas != [] && order != [] && areas[|areas| - 1] == Some(order[|order| - 1])
    ensures EndsIn(areas, order)
  {
    assert LastMoved(areas, |areas| - 1);
  }

  lemma OneMoreName(order: seq<string>, a: string)
    requires NoRepeat(order) && a !in order
    ensures NoRepeat(order + [a])
  {
  }

  lemma StaysPut(areas: Areas, order: seq<string>)
    requires areas != [] && areas[|areas| - 1].None?
    requires var before := areas[..|areas| - 1];
               Contiguous(before) && Names(before, order) && EndsIn(before, order) &&
               Installed(before, order) == Moved(before)
    ensures Contiguous(areas) && Names(areas, order) && EndsIn(areas, order) && Installed(areas, order) == Moved(areas)
  {
    StaysNamed(areas, order);
    StaysEnding(areas, order);
    StaysContiguous(areas);
    hide Contiguous, Names, EndsIn, Moved, Installed, Group;
    OthersInstalled(areas, order);
    MovedStep(areas);
  }

  lemma StaysNamed(areas: Areas, order: seq<string>)
    requires areas != [] && areas[|areas| - 1].None? && Names(areas[..|areas| - 1], order)
    ensures Names(areas, order)
  {
    var n := |areas| - 1;
    var before := areas[..n];
    forall x ensures x in order <==> exists i :: 0 <= i < |areas| && areas[i] == Some(x) {
      if x in order {
        var i :| 0 <= i < n && before[i] == Some(x);
        assert areas[i] == Some(x);
      }
      if i :| 0 <= i < |areas| && areas[i] == Some(x) {
        assert before[i] == Some(x);
      }
    }
  }

  lemma StaysEnding(areas: Areas, order: seq<string>)
    requires areas != [] && areas[|areas| - 1].None? && EndsIn(areas[..|areas| - 1], order)
    ensures EndsIn(areas, order)
  {
    if order != [] {
      var before := areas[..|areas| - 1];
      var m: nat :| LastMoved(before, m) && before[m] == Some(order[|order| - 1]);
      assert LastMoved(areas, m);
    }
  }

  lemma StaysContiguous(areas: Areas)
    requires areas != [] && areas[|areas| - 1].None? && Contiguous(areas[..|areas| - 1])
    ensures Contiguous(areas)
  {
    var n := |areas| - 1;
    var before := areas[..n];
    forall i, j, k | 0 <= i < j < k < |areas| && areas[i].Some? && areas[j].Some? && areas[i] == areas[k]
      ensures areas[j] == areas[i]
    {
      assert before[i] == areas[i] && before[j] == areas[j] && k < n && before[k] == areas[k];
    }
  }

  lemma StillContiguous(areas: Areas, order: seq<string>)
    requires areas != [] && areas[|areas| - 1].Some?
    requires var before := areas[..|areas| - 1]; Contiguous(before) && Names(before, order) && EndsIn(before, order)
    requires areas[|areas| - 1].value !in order || (order != [] && order[|order| - 1] == areas[|areas| - 1].value)
    ensures Contiguous(areas)
  {
    var n := |areas| - 1;
    var before := areas[..n];
    forall i, j, k | 0 <= i < j < k < |areas| && areas[i].Some? && areas[j].Some? && areas[i] == areas[k]
      ensures areas[j] == areas[i]
    {
      assert before[i] == areas[i] && before[j] == areas[j];
      if k < n {
        assert before[k] == areas[k];
      } else {
        assert areas[n].value in order;
        var m: nat :| LastMoved(before, m) && before[m] == Some(order[|order| - 1]);
        assert j <= m;
      }
    }
  }

  lemma ComesBack(areas: Areas, n: nat, order: seq<string>)
    requires n < |areas| && areas[n].Some? && areas[n].value in order && order[|order| - 1] != areas[n].value
    requires Names(areas[..n], order) && EndsIn(areas[..n], order)
    ensures !Contiguous(areas)
  {
    var before := areas[..n];
    var i :| 0 <= i < n && before[i] == Some(areas[n].value);
    var m: nat :| LastMoved(before, m) && before[m] == Some(order[|order| - 1]);
    assert areas[i] == areas[n] && areas[m] == before[m] && i < m < n;
  }
}
