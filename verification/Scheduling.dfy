/** Largest-first list scheduling on equal machines, and how far from the best
    possible assignment it can be.  A schedule of the jobs `w` is the sequence
    `p` of the machines they run on. */
module Scheduling {

  // ---- loads

  /** The weight machine `i` carries. */
  function Load(w: seq<real>, p: seq<nat>, i: nat): real
    requires |w| == |p|
  {
    if w == [] then 0.0
    else
      var n := |w| - 1;
      Load(w[..n], p[..n], i) + if p[n] == i then w[n] else 0.0
  }

  function Total(w: seq<real>): real {
    if w == [] then 0.0 else Total(w[..|w| - 1]) + w[|w| - 1]
  }

  /** What the first `m` machines carry together. */
  function Carried(w: seq<real>, p: seq<nat>, m: nat): real
    requires |w| == |p|
  {
    if m == 0 then 0.0 else Carried(w, p, m - 1) + Load(w, p, m - 1)
  }

  function Times(m: nat, x: real): real {
    m as real * x
  }

  ghost predicate OnMachines(p: seq<nat>, m: nat) {
    forall j :: 0 <= j < |p| ==> p[j] < m
  }

  ghost predicate NonNegative(w: seq<real>) {
    forall j :: 0 <= j < |w| ==> w[j] >= 0.0
  }

  ghost predicate Descending(w: seq<real>) {
    forall j, k :: 0 <= j < k < |w| ==> w[j] >= w[k]
  }

  /** No machine carries more than `limit`. */
  ghost predicate Within(w: seq<real>, p: seq<nat>, m: nat, limit: real)
    requires |w| == |p|
  {
    forall i :: 0 <= i < m ==> Load(w, p, i) <= limit
  }

  // ---- the greedy schedule

  /** The least loaded of the machines 0..m, the lowest-numbered on a tie. */
  function Least(w: seq<real>, p: seq<nat>, m: nat): (t: nat)
    requires |w| == |p| && m > 0
    ensures t < m && forall i :: 0 <= i < m ==> Load(w, p, t) <= Load(w, p, i)
    ensures forall i :: 0 <= i < t ==> Load(w, p, t) < Load(w, p, i)
  {
    if m == 1 then 0
    else
      var t := Least(w, p, m - 1);
      if Load(w, p, m - 1) < Load(w, p, t) then m - 1 else t
  }

  /** Each job in turn onto the machine that is least loaded then. */
  function Greedy(w: seq<real>, m: nat): (p: seq<nat>)
    requires m > 0
    ensures |p| == |w| && OnMachines(p, m)
  {
    if w == [] then []
    else
      var before := w[..|w| - 1];
      var p := Greedy(before, m);
      p + [Least(before, p, m)]
  }

  // ---- what a load holds

  lemma {:induction false} LoadNonNegative(w: seq<real>, p: seq<nat>, i: nat)
    requires |w| == |p| && NonNegative(w)
    ensures Load(w, p, i) >= 0.0
  {
    if w != [] {
      LoadNonNegative(w[..|w| - 1], p[..|w| - 1], i);
    }
  }

  lemma {:induction false} HoldsOne(w: seq<real>, p: seq<nat>, i: nat, j: nat)
    requires |w| == |p| && NonNegative(w) && j < |w| && p[j] == i
    ensures Load(w, p, i) >= w[j]
  {
    var n := |w| - 1;
    if j < n {
      HoldsOne(w[..n], p[..n], i, j);
    } else {
      LoadNonNegative(w[..n], p[..n], i);
    }
  }

  lemma {:induction false} HoldsTwo(w: seq<real>, p: seq<nat>, i: nat, j: nat, k: nat)
    requires |w| == |p| && NonNegative(w) && j < k < |w| && p[j] == p[k] == i
    ensures Load(w, p, i) >= w[j] + w[k]
  {
    var n := |w| - 1;
    if k < n {
      HoldsTwo(w[..n], p[..n], i, j, k);
    } else {
      HoldsOne(w[..n], p[..n], i, j);
    }
  }

  lemma {:induction false} HoldsThree(w: seq<real>, p: seq<nat>, i: nat, j: nat, k: nat, l: nat)
    requires |w| == |p| && NonNegative(w) && j < k < l < |w| && p[j] == p[k] == p[l] == i
    ensures Load(w, p, i) >= w[j] + w[k] + w[l]
  {
    var n := |w| - 1;
    if l < n {
      HoldsThree(w[..n], p[..n], i, j, k, l);
    } else {
      HoldsTwo(w[..n], p[..n], i, j, k);
    }
  }

  lemma {:induction false} HoldsNothing(w: seq<real>, p: seq<nat>, i: nat)
    requires |w| == |p| && forall l :: 0 <= l < |w| ==> p[l] != i
    ensures Load(w, p, i) == 0.0
  {
    if w != [] {
      HoldsNothing(w[..|w| - 1], p[..|w| - 1], i);
    }
  }

  lemma {:induction false} HoldsOnly(w: seq<real>, p: seq<nat>, i: nat, j: nat)
    requires |w| == |p| && j < |w| && p[j] == i
    requires forall l :: 0 <= l < |w| && p[l] == i ==> l == j
    ensures Load(w, p, i) == w[j]
  {
    var n := |w| - 1;
    if j < n {
      HoldsOnly(w[..n], p[..n], i, j);
    } else {
      HoldsNothing(w[..n], p[..n], i);
    }
  }

  lemma {:induction false} HoldsOnlyTwo(w: seq<real>, p: seq<nat>, i: nat, j: nat, k: nat)
    requires |w| == |p| && j < k < |w| && p[j] == p[k] == i
    requires forall l :: 0 <= l < |w| && p[l] == i ==> l == j || l == k
    ensures Load(w, p, i) == w[j] + w[k]
  {
    var n := |w| - 1;
    if k < n {
      HoldsOnlyTwo(w[..n], p[..n], i, j, k);
    } else {
      HoldsOnly(w[..n], p[..n], i, j);
    }
  }

  // ---- the machines together carry the jobs

  lemma {:induction false} CarriedLast(w: seq<real>, p: seq<nat>, m: nat)
    requires |w| == |p| > 0
    ensures Carried(w, p, m) == Carried(w[..|w| - 1], p[..|w| - 1], m) + if p[|w| - 1] < m then w[|w| - 1] else 0.0
  {
    if m > 0 {
      CarriedLast(w, p, m - 1);
    }
  }

  lemma {:induction false} NothingCarried(m: nat)
    ensures Carried([], [], m) == 0.0
  {
    if m > 0 {
      NothingCarried(m - 1);
    }
  }

  lemma {:induction false} AllCarried(w: seq<real>, p: seq<nat>, m: nat)
    requires |w| == |p| && OnMachines(p, m)
    ensures Carried(w, p, m) == Total(w)
  {
    if w == [] {
      NothingCarried(m);
    } else {
      CarriedLast(w, p, m);
      AllCarried(w[..|w| - 1], p[..|w| - 1], m);
    }
  }

  lemma {:induction false} CarriedAtMost(w: seq<real>, p: seq<nat>, m: nat, limit: real)
    requires |w| == |p| && Within(w, p, m, limit)
    ensures Carried(w, p, m) <= Times(m, limit)
  {
    if m > 0 {
      CarriedAtMost(w, p, m - 1, limit);
    }
  }

  lemma {:induction false} CarriedAtLeast(w: seq<real>, p: seq<nat>, m: nat, least: real)
    requires |w| == |p| && forall i :: 0 <= i < m ==> least <= Load(w, p, i)
    ensures Times(m, least) <= Carried(w, p, m)
  {
    if m > 0 {
      CarriedAtLeast(w, p, m - 1, least);
    }
  }

  lemma {:induction false} PrefixWithin(w: seq<real>, q: seq<nat>, m: nat, limit: real)
    requires |w| == |q| > 0 && NonNegative(w) && Within(w, q, m, limit)
    ensures Within(w[..|w| - 1], q[..|w| - 1], m, limit)
  {
    var n := |w| - 1;
    forall i | 0 <= i < m ensures Load(w[..n], q[..n], i) <= limit {
      assert Load(w[..n], q[..n], i) <= Load(w, q, i);
    }
  }

  // ---- one greedy step

  /** The step the greedy schedule of `w` takes last. */
  lemma GreedyStep(w: seq<real>, m: nat, i: nat)
    requires m > 0 && w != []
    ensures var n := |w| - 1; var p := Greedy(w[..n], m); var t := Least(w[..n], p, m);
            Greedy(w, m)[..n] == p && Load(w, Greedy(w, m), i) == Load(w[..n], p, i) + if i == t then w[n] else 0.0
  {
    var n := |w| - 1;
    var p := Greedy(w[..n], m);
    var all := Greedy(w, m);
    assert all == p + [Least(w[..n], p, m)];
    assert all[..n] == p;
  }

  /** Everything the greedy machine had, spread evenly, fits beside the new job
      in any schedule within `limit`. */
  lemma LeastIsLow(w: seq<real>, m: nat, q: seq<nat>, limit: real)
    requires m > 0 && w != [] && |q| == |w| && OnMachines(q, m) && Within(w, q, m, limit)
    ensures var n := |w| - 1; var p := Greedy(w[..n], m);
            Times(m, Load(w[..n], p, Least(w[..n], p, m))) + w[n] <= Times(m, limit)
  {
    hide Times;
    var n := |w| - 1;
    var p := Greedy(w[..n], m);
    CarriedAtLeast(w[..n], p, m, Load(w[..n], p, Least(w[..n], p, m)));
    AllCarried(w[..n], p, m);
    AllCarried(w, q, m);
    CarriedAtMost(w, q, m, limit);
  }

  // ---- the bounds

  /** No two loads differ by more than the heaviest job, whatever the order. */
  lemma {:induction false} GapBound(w: seq<real>, m: nat, heaviest: real, i: nat, j: nat)
    requires m > 0 && NonNegative(w) && heaviest >= 0.0 && i < m && j < m
    requires forall k :: 0 <= k < |w| ==> w[k] <= heaviest
    ensures Load(w, Greedy(w, m), i) <= Load(w, Greedy(w, m), j) + heaviest
  {
    if w != [] {
      GapBound(w[..|w| - 1], m, heaviest, i, j);
      GreedyStep(w, m, i);
      GreedyStep(w, m, j);
    }
  }

  lemma TimesSum(m: nat, x: real, y: real)
    ensures Times(m, x + y) == Times(m, x) + Times(m, y)
  {
    var r := m as real;
    assert r * (x + y) == r * x + r * y;
  }

  lemma TimesMore(m: nat, n: nat, x: real)
    ensures Times(m + n, x) == Times(m, x) + Times(n, x)
  {
    var r, s := m as real, n as real;
    assert (m + n) as real == r + s;
    assert (r + s) * x == r * x + s * x;
  }

  lemma TimesMonotone(m: nat, x: real, y: real)
    requires x <= y
    ensures Times(m, x) <= Times(m, y)
  {
  }

  lemma TimesOne(x: real)
    ensures Times(1, x) == x
  {
  }

  /** At most (2 - 1/m) times the limit. */
  ghost predicate WithinTwice(m: nat, load: real, limit: real)
    requires m > 0
  {
    Times(m, load) <= Times(2 * m - 1, limit)
  }

  /** At most (4/3 - 1/(3m)) times the limit. */
  ghost predicate WithinAThird(m: nat, load: real, limit: real)
    requires m > 0
  {
    3.0 * Times(m, load) <= Times(4 * m - 1, limit)
  }

  lemma TimesParts(m: nat, job: real, limit: real)
    requires m > 0
    ensures Times(m, job) == Times(m - 1, job) + job
    ensures Times(2 * m - 1, limit) == Times(m, limit) + Times(m - 1, limit)
    ensures Times(4 * m - 1, limit) == 3.0 * Times(m, limit) + Times(m - 1, limit)
    ensures Times(m - 1, 3.0 * job) == 3.0 * Times(m - 1, job)
  {
    hide Times;
    TimesMore(m - 1, 1, job);
    TimesOne(job);
    TimesMore(m, m - 1, limit);
    TimesMore(m, m, limit);
    TimesMore(m + m, m + (m - 1), limit);
    TimesSum(m - 1, job, job);
    TimesSum(m - 1, job, job + job);
    assert 3.0 * job == job + (job + job);
    assert 4 * m - 1 == (m + m) + (m + (m - 1));
    assert 2 * m - 1 == m + (m - 1);
  }

  lemma Twice(m: nat, limit: real, least: real, job: real)
    requires m > 0 && Times(m, least) + job <= Times(m, limit) && job <= limit
    ensures WithinTwice(m, least + job, limit)
  {
    hide Times;
    TimesSum(m, least, job);
    TimesParts(m, job, limit);
    TimesMonotone(m - 1, job, limit);
  }

  lemma ByAThird(m: nat, limit: real, least: real, job: real)
    requires m > 0 && Times(m, least) + job <= Times(m, limit) && 3.0 * job <= limit
    ensures WithinAThird(m, least + job, limit)
  {
    hide Times;
    TimesSum(m, least, job);
    TimesParts(m, job, limit);
    TimesMonotone(m - 1, 3.0 * job, limit);
  }

  lemma WithinIsWithin(m: nat, load: real, limit: real)
    requires m > 0 && load <= limit && limit >= 0.0
    ensures WithinTwice(m, load, limit) && WithinAThird(m, load, limit)
  {
    TimesParts(m, load, limit);
    TimesMonotone(m, load, limit);
    TimesMonotone(m - 1, 0.0, limit);
    hide Times;
  }

  /** Where the last job lands. */
  ghost function LastLoad(w: seq<real>, m: nat): real
    requires m > 0 && w != []
  {
    var n := |w| - 1;
    var p := Greedy(w[..n], m);
    Load(w[..n], p, Least(w[..n], p, m)) + w[n]
  }

  lemma LastWithinTwice(w: seq<real>, m: nat, q: seq<nat>, limit: real)
    requires m > 0 && w != [] && NonNegative(w) && |q| == |w| && OnMachines(q, m) && Within(w, q, m, limit)
    ensures WithinTwice(m, LastLoad(w, m), limit)
  {
    hide Times, WithinTwice;
    var n := |w| - 1;
    var p := Greedy(w[..n], m);
    LeastIsLow(w, m, q, limit);
    HoldsOne(w, q, q[n], n);
    Twice(m, limit, Load(w[..n], p, Least(w[..n], p, m)), w[n]);
  }

  lemma LastWithinAThird(w: seq<real>, m: nat, q: seq<nat>, limit: real)
    requires m > 0 && w != [] && 3.0 * w[|w| - 1] <= limit && |q| == |w| && OnMachines(q, m) && Within(w, q, m, limit)
    ensures WithinAThird(m, LastLoad(w, m), limit)
  {
    hide Times, WithinAThird;
    var n := |w| - 1;
    var p := Greedy(w[..n], m);
    LeastIsLow(w, m, q, limit);
    ByAThird(m, limit, Load(w[..n], p, Least(w[..n], p, m)), w[n]);
  }

  /** Greedy in any order is within (2 - 1/m) of any schedule. */
  lemma {:induction false} TwiceBound(w: seq<real>, m: nat, q: seq<nat>, limit: real, i: nat)
    requires m > 0 && NonNegative(w) && |q| == |w| && OnMachines(q, m) && Within(w, q, m, limit) && i < m
    ensures WithinTwice(m, Load(w, Greedy(w, m), i), limit)
  {
    hide WithinTwice;
    LoadNonNegative(w, q, i);
    assert 0.0 <= Load(w, q, i) <= limit;
    if w != [] {
      var n := |w| - 1;
      PrefixWithin(w, q, m, limit);
      TwiceBound(w[..n], m, q[..n], limit, i);
      GreedyStep(w, m, i);
      LastWithinTwice(w, m, q, limit);
    } else {
      WithinIsWithin(m, 0.0, limit);
    }
  }

  // ---- heavy jobs: largest-first is then as good as any schedule

  /** The credit of each job: two when it has its machine to itself, else one. */
  ghost function Credits(p: seq<nat>, n: nat): (c: seq<real>)
    requires n <= |p|
    ensures |c| == n && forall j :: 0 <= j < n ==> c[j] == if Alone(p, j) then 2.0 else 1.0
  {
    if n == 0 then [] else Credits(p, n - 1) + [if Alone(p, n - 1) then 2.0 else 1.0]
  }

  ghost predicate Alone(p: seq<nat>, j: nat)
    requires j < |p|
  {
    forall l :: 0 <= l < |p| && p[l] == p[j] ==> l == j
  }

  /** Every busy machine holds two credits at least. */
  lemma TwoCredits(w: seq<real>, p: seq<nat>, i: nat)
    requires |w| == |p| && Load(w, p, i) > 0.0
    ensures Load(Credits(p, |p|), p, i) >= 2.0
  {
    var c := Credits(p, |p|);
    if forall l :: 0 <= l < |w| ==> p[l] != i {
      HoldsNothing(w, p, i);
    }
    var j :| 0 <= j < |w| && p[j] == i;
    if Alone(p, j) {
      HoldsOne(c, p, i, j);
    } else {
      var k :| 0 <= k < |p| && p[k] == p[j] && k != j;
      HoldsTwo(c, p, i, if j < k then j else k, if j < k then k else j);
    }
  }

  /** In a schedule where no two jobs fit beside a job with two credits, and no
      three jobs fit at all, a machine holds two credits at most. */
  lemma AtMostTwoCredits(w: seq<real>, c: seq<real>, q: seq<nat>, i: nat, limit: real)
    requires |w| == |c| == |q| && NonNegative(w) && Load(w, q, i) <= limit
    requires forall j :: 0 <= j < |w| ==> 3.0 * w[j] > limit && (c[j] == 1.0 || c[j] == 2.0)
    requires forall j, k :: 0 <= j < |w| && 0 <= k < |w| && j != k && c[j] == 2.0 ==> w[j] + w[k] > limit
    ensures Load(c, q, i) <= 2.0
  {
    if j :| 0 <= j < |w| && q[j] == i {
      if k :| 0 <= k < |w| && q[k] == i && k != j {
        var a, b := if j < k then j else k, if j < k then k else j;
        HoldsTwo(w, q, i, a, b);
        forall l | 0 <= l < |w| && q[l] == i ensures l == a || l == b {
          if l < a {
            HoldsThree(w, q, i, l, a, b);
          } else if a < l < b {
            HoldsThree(w, q, i, a, l, b);
          } else if b < l {
            HoldsThree(w, q, i, a, b, l);
          }
        }
        HoldsOnlyTwo(c, q, i, a, b);
      } else {
        HoldsOnly(c, q, i, j);
      }
    } else {
      HoldsNothing(c, q, i);
    }
  }

  /** When every greedy machine is busy, the last job fits on the least loaded
      one: otherwise the credits of all jobs, two on each greedy machine and one
      for the last job, would not fit on the machines of `q`. */
  lemma LastJobFits(w: seq<real>, m: nat, q: seq<nat>, limit: real)
    requires m > 0 && w != [] && NonNegative(w) && Descending(w) && |q| == |w| && OnMachines(q, m)
    requires Within(w, q, m, limit)
    requires forall j :: 0 <= j < |w| ==> 3.0 * w[j] > limit
    requires var n := |w| - 1; var p := Greedy(w[..n], m); Load(w[..n], p, Least(w[..n], p, m)) > 0.0
    ensures var n := |w| - 1; var p := Greedy(w[..n], m); Load(w[..n], p, Least(w[..n], p, m)) + w[n] <= limit
  {
    var n := |w| - 1;
    var before := w[..n];
    var p := Greedy(before, m);
    var t := Least(before, p, m);
    if Load(before, p, t) + w[n] > limit {
      var c := Credits(p, n);
      var all := c + [1.0];
      assert all[..n] == c;
      forall i | 0 <= i < m ensures Load(c, p, i) >= 2.0 {
        TwoCredits(before, p, i);
      }
      CarriedAtLeast(c, p, m, 2.0);
      AllCarried(c, p, m);
      forall j, k | 0 <= j < |w| && 0 <= k < |w| && j != k && all[j] == 2.0 ensures w[j] + w[k] > limit {
        assert Alone(p, j);
        HoldsOnly(before, p, p[j], j);
        assert w[k] >= w[n];
      }
      forall i | 0 <= i < m ensures Load(all, q, i) <= 2.0 {
        AtMostTwoCredits(w, all, q, i, limit);
      }
      CarriedAtMost(all, q, m, 2.0);
      AllCarried(all, q, m);
      assert false;
    }
  }

  /** Jobs each over a third of what some schedule stays within: largest-first
      stays within it too. */
  lemma {:induction false} HeavyJobsFit(w: seq<real>, m: nat, q: seq<nat>, limit: real)
    requires m > 0 && NonNegative(w) && Descending(w) && |q| == |w| && OnMachines(q, m) && Within(w, q, m, limit)
    requires forall j :: 0 <= j < |w| ==> 3.0 * w[j] > limit
    ensures Within(w, Greedy(w, m), m, limit)
  {
    LoadNonNegative(w, q, 0);
    assert 0.0 <= Load(w, q, 0) <= limit;
    if w != [] {
      var n := |w| - 1;
      PrefixWithin(w, q, m, limit);
      HeavyJobsFit(w[..n], m, q[..n], limit);
      var p := Greedy(w[..n], m);
      var t := Least(w[..n], p, m);
      HoldsOne(w, q, q[n], n);
      LoadNonNegative(w[..n], p, t);
      if Load(w[..n], p, t) > 0.0 {
        LastJobFits(w, m, q, limit);
      }
      forall i | 0 <= i < m ensures Load(w, Greedy(w, m), i) <= limit {
        GreedyStep(w, m, i);
      }
    }
  }

  /** Largest-first is within (4/3 - 1/(3m)) of any schedule. */
  lemma {:induction false} LargestFirstBound(w: seq<real>, m: nat, q: seq<nat>, limit: real, i: nat)
    requires m > 0 && NonNegative(w) && Descending(w) && |q| == |w| && OnMachines(q, m) && Within(w, q, m, limit)
    requires i < m
    ensures WithinAThird(m, Load(w, Greedy(w, m), i), limit)
  {
    hide WithinAThird;
    LoadNonNegative(w, q, i);
    assert 0.0 <= Load(w, q, i) <= limit;
    if w == [] {
      WithinIsWithin(m, 0.0, limit);
    } else if 3.0 * w[|w| - 1] > limit {
      HeavyJobsFit(w, m, q, limit);
      WithinIsWithin(m, Load(w, Greedy(w, m), i), limit);
    } else {
      var n := |w| - 1;
      PrefixWithin(w, q, m, limit);
      LargestFirstBound(w[..n], m, q[..n], limit, i);
      GreedyStep(w, m, i);
      LastWithinAThird(w, m, q, limit);
    }
  }

  // ---- the bound is met

  lemma GreedyOn(w: seq<real>, p: seq<nat>, t: nat, job: real)
    requires |w| == |p| && Greedy(w, 2) == p && t < 2
    requires if t == 0 then Load(w, p, 0) <= Load(w, p, 1) else Load(w, p, 1) < Load(w, p, 0)
    ensures Greedy(w + [job], 2) == p + [t]
    ensures forall i :: Load(w + [job], p + [t], i) == Load(w, p, i) + if i == t then job else 0.0
  {
    assert (w + [job])[..|w|] == w && (p + [t])[..|p|] == p;
    assert Least(w, p, 1) == 0;
  }

  /** Five jobs on two machines where largest-first is 7/6 of the best, which is
      4/3 - 1/6: the bound cannot be lowered. */
  lemma BoundIsMet()
    ensures Within(FIVE_JOBS, [0, 0, 1, 1, 1], 2, 6.0) && Load(FIVE_JOBS, Greedy(FIVE_JOBS, 2), 0) == 7.0
    ensures 3.0 * Times(2, 7.0) == Times(4 * 2 - 1, 6.0)
  {
    hide Load, Greedy;
    FiveGreedily();
    FiveByHand();
  }

  const FIVE_JOBS: seq<real> := [3.0, 3.0, 2.0, 2.0, 2.0]

  lemma FiveGreedily()
    ensures Load(FIVE_JOBS, Greedy(FIVE_JOBS, 2), 0) == 7.0
  {
    assert Load([], [], 0) == Load([], [], 1) == 0.0 && Greedy([], 2) == [];
    hide Load, Greedy;
    GreedyOn([], [], 0, 3.0);
    GreedyOn([] + [3.0], [] + [0], 1, 3.0);
    GreedyOn([] + [3.0] + [3.0], [] + [0] + [1], 0, 2.0);
    GreedyOn([] + [3.0] + [3.0] + [2.0], [] + [0] + [1] + [0], 1, 2.0);
    GreedyOn([] + [3.0] + [3.0] + [2.0] + [2.0], [] + [0] + [1] + [0] + [1], 0, 2.0);
    assert [] + [3.0] + [3.0] + [2.0] + [2.0] + [2.0] == FIVE_JOBS;
  }

  lemma FiveByHand()
    ensures Within(FIVE_JOBS, [0, 0, 1, 1, 1], 2, 6.0)
  {
    var q: seq<nat> := [0, 0, 1, 1, 1];
    assert Load(FIVE_JOBS, q, 0) == 6.0 by {
      HoldsOnlyTwo(FIVE_JOBS, q, 0, 0, 1);
    }
    AllCarried(FIVE_JOBS, q, 2);
    FiveTotal();
    assert Carried(FIVE_JOBS, q, 2) == Load(FIVE_JOBS, q, 0) + Load(FIVE_JOBS, q, 1) by {
      hide Load;
      assert Carried(FIVE_JOBS, q, 1) == Load(FIVE_JOBS, q, 0);
    }
  }

  lemma FiveTotal()
    ensures Total(FIVE_JOBS) == 12.0
  {
    assert FIVE_JOBS[..4] == [3.0, 3.0, 2.0, 2.0];
    assert FIVE_JOBS[..4][..3] == [3.0, 3.0, 2.0];
    assert FIVE_JOBS[..4][..3][..2] == [3.0, 3.0];
    assert FIVE_JOBS[..4][..3][..2][..1] == [3.0];
    assert Total([3.0]) == 3.0;
    assert Total([3.0, 3.0]) == 6.0;
    assert Total([3.0, 3.0, 2.0]) == 8.0;
    assert Total([3.0, 3.0, 2.0, 2.0]) == 10.0;
  }
}
