// Queue tails of the test runner: testing/framework/queue.ts.
//
// `ShardTail` deals durations out round-robin; `DynamicTail` hands the longest
// remaining duration to the least loaded worker.  Durations are non-negative
// reals, so floating-point rounding is not modelled.
module QueueTails {

  ghost predicate NonNegative(p: seq<real>) {
    forall i :: 0 <= i < |p| ==> p[i] >= 0.0
  }

  function WorkerCount(workers: int): (m: nat)
    ensures m >= 1 && (workers >= 1 ==> m == workers) && (workers < 1 ==> m == 1)
  {
    if workers < 1 then 1 else workers
  }

  function Sum(s: seq<real>): real {
    if s == [] then 0.0 else Sum(s[..|s| - 1]) + s[|s| - 1]
  }

  /** The largest element (`Math.max(...s)`). */
  function MaxOf(s: seq<real>): (r: real)
    requires s != []
    ensures r in s && forall i :: 0 <= i < |s| ==> s[i] <= r
  {
    if |s| == 1 then s[0]
    else
      var rest := MaxOf(s[..|s| - 1]);
      if rest < s[|s| - 1] then s[|s| - 1] else rest
  }

  // ----- Assignments: the reference notion of a schedule -----

  /** `f[i]` is the worker that runs the job of length `p[i]`. */
  ghost predicate Assignment(f: seq<nat>, n: nat, m: nat) {
    |f| == n && forall i :: 0 <= i < n ==> f[i] < m
  }

  /** Total length assigned to worker `k`. */
  function Load(f: seq<nat>, p: seq<real>, k: nat): real
    requires |f| == |p|
  {
    if p == [] then 0.0
    else
      var n := |p| - 1;
      Load(f[..n], p[..n], k) + if f[n] == k then p[n] else 0.0
  }

  /** Every worker finishes by `t`. */
  ghost predicate FinishesBy(f: seq<nat>, p: seq<real>, m: nat, t: real)
    requires |f| == |p|
  {
    forall k: nat :: k < m ==> Load(f, p, k) <= t
  }

  function Loads(f: seq<nat>, p: seq<real>, m: nat): (r: seq<real>)
    requires |f| == |p|
    ensures |r| == m && forall k :: 0 <= k < m ==> r[k] == Load(f, p, k)
  {
    seq(m, k requires 0 <= k < m => Load(f, p, k))
  }

  lemma {:induction false} LoadNonNegative(f: seq<nat>, p: seq<real>, k: nat)
    requires |f| == |p| && NonNegative(p)
    ensures Load(f, p, k) >= 0.0
  {
    if p != [] {
      LoadNonNegative(f[..|p| - 1], p[..|p| - 1], k);
    }
  }

  lemma {:induction false} SumZeros(z: seq<real>)
    requires forall i :: 0 <= i < |z| ==> z[i] == 0.0
    ensures Sum(z) == 0.0
  {
    if z != [] {
      SumZeros(z[..|z| - 1]);
    }
  }

  lemma {:induction false} SumUpdate(s: seq<real>, k: nat, d: real)
    requires k < |s|
    ensures Sum(s[k := s[k] + d]) == Sum(s) + d
  {
    var n := |s| - 1;
    if k == n {
      assert s[k := s[k] + d][..n] == s[..n];
    } else {
      SumUpdate(s[..n], k, d);
      assert s[k := s[k] + d][..n] == s[..n][k := s[k] + d];
    }
  }

  /** No work is lost: the loads add up to the total, for any weights. */
  lemma {:induction false} LoadsAddUp(f: seq<nat>, p: seq<real>, m: nat)
    requires Assignment(f, |p|, m)
    ensures Sum(Loads(f, p, m)) == Sum(p)
  {
    if p == [] {
      SumZeros(Loads(f, p, m));
    } else {
      var n := |p| - 1;
      LoadsAddUp(f[..n], p[..n], m);
      var before := Loads(f[..n], p[..n], m);
      SumUpdate(before, f[n], p[n]);
      assert Loads(f, p, m) == before[f[n] := before[f[n]] + p[n]];
    }
  }

  /** `n * t`, by repeated addition to keep the sums below linear. */
  ghost function Times(n: nat, t: real): real {
    if n == 0 then 0.0 else Times(n - 1, t) + t
  }

  lemma {:induction false} TimesIsProduct(n: nat, t: real)
    ensures Times(n, t) == n as real * t
  {
    if n > 0 {
      TimesIsProduct(n - 1, t);
      assert n as real * t == (n - 1) as real * t + t;
    }
  }

  lemma {:induction false} SumAtMost(s: seq<real>, t: real)
    requires forall i :: 0 <= i < |s| ==> s[i] <= t
    ensures Sum(s) <= Times(|s|, t)
  {
    if s != [] {
      var n := |s| - 1;
      SumAtMost(s[..n], t);
    }
  }

  lemma {:induction false} SumAtLeast(s: seq<real>, t: real)
    requires forall i :: 0 <= i < |s| ==> s[i] >= t
    ensures Sum(s) >= Times(|s|, t)
  {
    if s != [] {
      var n := |s| - 1;
      SumAtLeast(s[..n], t);
    }
  }

  /** Dropping the last job cannot delay anybody. */
  lemma PrefixFinishesBy(f: seq<nat>, p: seq<real>, m: nat, t: real)
    requires |f| == |p| && p != [] && NonNegative(p) && FinishesBy(f, p, m, t)
    ensures FinishesBy(f[..|p| - 1], p[..|p| - 1], m, t)
  {
    var n := |p| - 1;
    forall k: nat | k < m ensures Load(f[..n], p[..n], k) <= t {
      assert Load(f, p, k) <= t;
    }
  }

  // ----- Longest-first list scheduling on named workers -----

  /** The first worker with the smallest load. */
  function LeastLoaded(s: seq<real>): (k: nat)
    requires s != []
    ensures k < |s| && forall i :: 0 <= i < |s| ==> s[k] <= s[i]
  {
    if |s| == 1 then 0
    else
      var k := LeastLoaded(s[..|s| - 1]);
      if s[|s| - 1] < s[k] then |s| - 1 else k
  }

  /** Jobs in the order given, each to the least loaded worker so far. */
  function Greedy(p: seq<real>, m: nat): (f: seq<nat>)
    requires m >= 1
    ensures Assignment(f, |p|, m)
  {
    if p == [] then []
    else
      var f := Greedy(p[..|p| - 1], m);
      f + [LeastLoaded(Loads(f, p[..|p| - 1], m))]
  }

  predicate Before(descending: bool, a: real, b: real) {
    if descending then a >= b else a <= b
  }

  ghost predicate Sorted(descending: bool, s: seq<real>) {
    forall i, j :: 0 <= i < j < |s| ==> Before(descending, s[i], s[j])
  }

  /** Weight 2 marks a job that cannot share a worker with one of length `q`. */
  ghost function Weights(p: seq<real>, q: real, t: real): (w: seq<real>)
    ensures |w| == |p|
    ensures forall i :: 0 <= i < |p| ==> w[i] == if p[i] + q > t then 2.0 else 1.0
  {
    seq(|p|, i requires 0 <= i < |p| => if p[i] + q > t then 2.0 else 1.0)
  }

  lemma WeightsPrefix(p: seq<real>, q: real, t: real)
    requires p != []
    ensures Weights(p, q, t)[..|p| - 1] == Weights(p[..|p| - 1], q, t)
  {
  }

  /** The guarantee of longest-first scheduling against a schedule of length `t`. */
  ghost function GrahamBound(m: nat, t: real): real
    requires m >= 1
  {
    (4.0 / 3.0 - 1.0 / (3.0 * m as real)) * t
  }

  /** What three units of weight on one worker cost, when every job exceeds t/3. */
  lemma {:induction false} WeightForcesLoad(f: seq<nat>, p: seq<real>, k: nat, q: real, t: real)
    requires |f| == |p| && 0.0 <= q <= t && 3.0 * q > t
    requires forall i :: 0 <= i < |p| ==> p[i] >= q
    ensures var w := Load(f, Weights(p, q, t), k);
            var x := Load(f, p, k);
            && (w == 0.0 || w == 1.0 || w == 2.0 || w >= 3.0)
            && (w == 0.0 ==> x == 0.0) && (w == 1.0 ==> q <= x <= t - q)
            && (w == 2.0 ==> x > t - q) && (w >= 3.0 ==> x > t)
  {
    if p != [] {
      WeightsPrefix(p, q, t);
      WeightForcesLoad(f[..|p| - 1], p[..|p| - 1], k, q, t);
    }
  }

  /** If even the smallest job is longer than t/3, greedy placement of it meets `t`. */
  lemma BigJobsFit(p: seq<real>, f: seq<nat>, m: nat, t: real)
    requires m >= 1 && p != [] && NonNegative(p) && Sorted(true, p)
    requires Assignment(f, |p|, m) && FinishesBy(f, p, m, t)
    requires 3.0 * p[|p| - 1] > t
    ensures var n := |p| - 1;
            var before := Loads(Greedy(p[..n], m), p[..n], m);
            before[LeastLoaded(before)] + p[n] <= t
  {
    var n := |p| - 1;
    var q := p[n];
    var g := Greedy(p[..n], m);
    var before := Loads(g, p[..n], m);
    assert q <= t by {
      LoadNonNegative(f[..n], p[..n], f[n]);
      assert Load(f, p, f[n]) <= t;
    }
    if before[LeastLoaded(before)] + q > t {
      var w := Weights(p, q, t);
      WeightsPrefix(p, q, t);
      forall k | 0 <= k < m ensures Loads(f, w, m)[k] <= 2.0 && Loads(g, w[..n], m)[k] >= 2.0 {
        assert Load(f, p, k) <= t;
        WeightForcesLoad(f, p, k, q, t);
        assert before[k] > t - q;
        WeightForcesLoad(g, p[..n], k, q, t);
      }
      LoadsAddUp(f, w, m);
      LoadsAddUp(g, w[..n], m);
      SumAtMost(Loads(f, w, m), 2.0);
      SumAtLeast(Loads(g, w[..n], m), 2.0);
      assert false;
    }
  }

  /** Some worker is no busier than the average, so the smallest job starts early. */
  lemma AverageStart(p: seq<real>, f: seq<nat>, m: nat, t: real)
    requires m >= 1 && p != []
    requires Assignment(f, |p|, m) && FinishesBy(f, p, m, t)
    ensures var n := |p| - 1;
            var before := Loads(Greedy(p[..n], m), p[..n], m);
            Times(m, before[LeastLoaded(before)]) + p[n] <= Times(m, t)
  {
    var n := |p| - 1;
    var g := Greedy(p[..n], m);
    var before := Loads(g, p[..n], m);
    LoadsAddUp(g, p[..n], m);
    SumAtLeast(before, before[LeastLoaded(before)]);
    LoadsAddUp(f, p, m);
    SumAtMost(Loads(f, p, m), t);
  }

  lemma AveragingArithmetic(m: nat, least: real, q: real, t: real)
    requires m >= 1 && Times(m, least) + q <= Times(m, t) && 3.0 * q <= t
    ensures least + q <= GrahamBound(m, t)
  {
    TimesIsProduct(m, least);
    TimesIsProduct(m, t);
    DivideByM(m as real, least, q, t);
  }

  lemma DivideByM(m: real, least: real, q: real, t: real)
    requires m >= 1.0 && m * least + q <= m * t && 3.0 * q <= t
    ensures least + q <= (4.0 / 3.0 - 1.0 / (3.0 * m)) * t
  {
    var third := 1.0 / (3.0 * m);
    assert third * (3.0 * m) == 1.0;
    assert third > 0.0;
    var x := least + q;
    // m * x <= m * t + (m - 1) * q, and q <= t / 3
    assert m * x <= m * t + (m - 1.0) * q;
    assert (m - 1.0) * (t - 3.0 * q) >= 0.0;
    var y := (4.0 / 3.0 - third) * t;
    assert m * y == m * t + (m - 1.0) * t / 3.0 by {
      assert m * (third * t) == t / 3.0;
      assert m * y == 4.0 / 3.0 * (m * t) - m * (third * t);
    }
    assert m * x <= m * y;
    assert m * (y - x) >= 0.0;
  }

  lemma BoundCoversT(m: nat, t: real)
    requires m >= 1 && t >= 0.0
    ensures t <= GrahamBound(m, t)
  {
    var third := 1.0 / (3.0 * m as real);
    assert third <= 1.0 / 3.0;
    assert (1.0 / 3.0 - third) * t >= 0.0;
  }

  /** Longest-first scheduling is within (4/3 - 1/(3m)) of any assignment. */
  lemma {:induction false} GreedyWithinGraham(p: seq<real>, f: seq<nat>, m: nat, t: real, k: nat)
    requires m >= 1 && NonNegative(p) && Sorted(true, p) && t >= 0.0 && k < m
    requires Assignment(f, |p|, m) && FinishesBy(f, p, m, t)
    ensures Load(Greedy(p, m), p, k) <= GrahamBound(m, t)
  {
    BoundCoversT(m, t);
    if p != [] {
      var n := |p| - 1;
      PrefixFinishesBy(f, p, m, t);
      GreedyWithinGraham(p[..n], f[..n], m, t, k);
      var g := Greedy(p[..n], m);
      var before := Loads(g, p[..n], m);
      var chosen := LeastLoaded(before);
      assert Greedy(p, m)[..n] == g && Greedy(p, m)[n] == chosen;
      assert before[k] == Load(g, p[..n], k);
      if k == chosen {
        if 3.0 * p[n] > t {
          BigJobsFit(p, f, m, t);
        } else {
          AverageStart(p, f, m, t);
          AveragingArithmetic(m, before[k], p[n], t);
        }
      }
    }
  }

  // ----- Sorting (`Array.prototype.sort`), carrying an assignment along -----

  /** Where a stable sort inserts `x`: after everything that may precede it. */
  function InsertAt(descending: bool, s: seq<real>, x: real): (i: nat)
    requires Sorted(descending, s)
    ensures i <= |s|
    ensures forall j :: 0 <= j < i ==> Before(descending, s[j], x)
    ensures forall j :: i <= j < |s| ==> !Before(descending, s[j], x)
  {
    if s == [] || Before(descending, s[|s| - 1], x) then |s|
    else InsertAt(descending, s[..|s| - 1], x)
  }

  function InsertInto<T>(s: seq<T>, i: nat, x: T): (r: seq<T>)
    requires i <= |s|
    ensures |r| == |s| + 1 && r[i] == x
    ensures forall j :: 0 <= j < i ==> r[j] == s[j]
    ensures forall j :: i < j < |r| ==> r[j] == s[j - 1]
  {
    s[..i] + [x] + s[i..]
  }

  lemma InsertKeepsMultiset(s: seq<real>, i: nat, x: real)
    requires i <= |s|
    ensures multiset(InsertInto(s, i, x)) == multiset(s) + multiset{x}
  {
    assert s == s[..i] + s[i..];
  }

  lemma InsertKeepsSorted(descending: bool, s: seq<real>, x: real)
    requires Sorted(descending, s)
    ensures Sorted(descending, InsertInto(s, InsertAt(descending, s, x), x))
  {
  }

  function Sort(descending: bool, s: seq<real>): (r: seq<real>)
    ensures Sorted(descending, r) && multiset(r) == multiset(s) && |r| == |s|
  {
    if s == [] then []
    else
      var n := |s| - 1;
      assert s == s[..n] + [s[n]];
      var rest := Sort(descending, s[..n]);
      InsertKeepsSorted(descending, rest, s[n]);
      InsertKeepsMultiset(rest, InsertAt(descending, rest, s[n]), s[n]);
      InsertInto(rest, InsertAt(descending, rest, s[n]), s[n])
  }

  lemma {:induction false} LoadInsert(f: seq<nat>, p: seq<real>, i: nat, w: nat, x: real, k: nat)
    requires |f| == |p| && i <= |p|
    ensures Load(InsertInto(f, i, w), InsertInto(p, i, x), k)
            == Load(f, p, k) + if w == k then x else 0.0
  {
    var f', p' := InsertInto(f, i, w), InsertInto(p, i, x);
    var n := |p|;
    if i == n {
      assert f'[..n] == f && p'[..n] == p;
    } else {
      LoadInsert(f[..n - 1], p[..n - 1], i, w, x, k);
      assert f'[..n] == InsertInto(f[..n - 1], i, w);
      assert p'[..n] == InsertInto(p[..n - 1], i, x);
    }
  }

  /** Any assignment of the unsorted jobs is one of the sorted jobs, with the same loads. */
  lemma {:induction false} SortCarries(descending: bool, f: seq<nat>, p: seq<real>, m: nat)
    returns (f': seq<nat>)
    requires Assignment(f, |p|, m)
    ensures Assignment(f', |p|, m)
    ensures forall k: nat :: Load(f', Sort(descending, p), k) == Load(f, p, k)
  {
    if p == [] {
      f' := [];
    } else {
      var n := |p| - 1;
      var g := SortCarries(descending, f[..n], p[..n], m);
      var rest := Sort(descending, p[..n]);
      var i := InsertAt(descending, rest, p[n]);
      f' := InsertInto(g, i, f[n]);
      forall k: nat ensures Load(f', Sort(descending, p), k) == Load(f, p, k) {
        LoadInsert(g, rest, i, f[n], p[n], k);
      }
    }
  }

  lemma SortedStaysNonNegative(descending: bool, p: seq<real>)
    requires NonNegative(p)
    ensures NonNegative(Sort(descending, p))
  {
    var r := Sort(descending, p);
    forall i | 0 <= i < |r| ensures r[i] >= 0.0 {
      assert r[i] in multiset(r);
      assert r[i] in p;
    }
  }

  // ----- The two tails -----

  /** Finishing time of a schedule on `m` workers. */
  function Makespan(f: seq<nat>, p: seq<real>, m: nat): (r: real)
    requires |f| == |p| && m >= 1
    ensures FinishesBy(f, p, m, r)
    ensures exists k: nat :: k < m && r == Load(f, p, k)
  {
    var loads := Loads(f, p, m);
    var r := MaxOf(loads);
    assert forall k: nat :: k < m ==> Load(f, p, k) == loads[k];
    r
  }

  /** Longest-first list scheduling of `durations`, as a schedule of the sorted jobs. */
  function LongestFirst(durations: seq<real>, m: nat): (r: real)
    requires m >= 1
  {
    var sorted := Sort(true, durations);
    Makespan(Greedy(sorted, m), sorted, m)
  }

  /** Graham's bound, against every assignment of the jobs as they came. */
  lemma LongestFirstWithinGraham(durations: seq<real>, f: seq<nat>, m: nat)
    requires m >= 1 && NonNegative(durations) && Assignment(f, |durations|, m)
    ensures LongestFirst(durations, m) <= GrahamBound(m, Makespan(f, durations, m))
  {
    var sorted := Sort(true, durations);
    var t := Makespan(f, durations, m);
    var f' := SortCarries(true, f, durations, m);
    SortedStaysNonNegative(true, durations);
    assert FinishesBy(f', sorted, m, t) by {
      assert FinishesBy(f, durations, m, t);
    }
    assert t >= 0.0 by {
      LoadNonNegative(f, durations, 0);
    }
    forall k: nat | k < m ensures Load(Greedy(sorted, m), sorted, k) <= GrahamBound(m, t) {
      GreedyWithinGraham(sorted, f', m, t, k);
    }
  }

  /** `tail` is at most (4/3 - 1/(3m)) times the finishing time of any schedule whatever. */
  ghost predicate WithinGrahamOfAll(durations: seq<real>, m: nat, tail: real)
    requires m >= 1
  {
    forall f :: Assignment(f, |durations|, m) ==> tail <= GrahamBound(m, Makespan(f, durations, m))
  }

  lemma LongestFirstWithinGrahamOfAll(durations: seq<real>, m: nat)
    requires m >= 1 && NonNegative(durations)
    ensures WithinGrahamOfAll(durations, m, LongestFirst(durations, m))
  {
    forall f | Assignment(f, |durations|, m)
      ensures LongestFirst(durations, m) <= GrahamBound(m, Makespan(f, durations, m))
    {
      LongestFirstWithinGraham(durations, f, m);
    }
  }

  /** Named workers' loads once the first `i` jobs are placed. */
  ghost function LoadsAfter(jobs: seq<real>, i: nat, m: nat): (r: seq<real>)
    requires i <= |jobs| && m >= 1
    ensures |r| == m
  {
    Loads(Greedy(jobs[..i], m), jobs[..i], m)
  }

  lemma GreedyStep(jobs: seq<real>, i: nat, m: nat)
    requires i < |jobs| && m >= 1
    ensures var before := LoadsAfter(jobs, i, m);
            var k := LeastLoaded(before);
            LoadsAfter(jobs, i + 1, m) == before[k := before[k] + jobs[i]]
  {
    var before := LoadsAfter(jobs, i, m);
    var g := Greedy(jobs[..i], m);
    assert jobs[..i + 1][..i] == jobs[..i];
    assert Greedy(jobs[..i + 1], m) == g + [LeastLoaded(before)];
    AppendJob(g, jobs[..i], LeastLoaded(before), jobs[i], m);
    assert jobs[..i + 1] == jobs[..i] + [jobs[i]];
  }

  lemma AppendJob(f: seq<nat>, p: seq<real>, w: nat, x: real, m: nat)
    requires |f| == |p| && w < m
    ensures Loads(f + [w], p + [x], m) == Loads(f, p, m)[w := Load(f, p, w) + x]
  {
    assert (f + [w])[..|p|] == f && (p + [x])[..|p|] == p;
  }

  /** One pass of the heap loop keeps the heap a permutation of the named workers' loads. */
  lemma HeapStep(sorted: seq<real>, jobs: seq<real>, i: nat, m: nat)
    requires i < |jobs| && m >= 1 && |sorted| == m && Sorted(false, sorted)
    requires multiset(sorted) == multiset(LoadsAfter(jobs, i, m))
    ensures multiset(sorted[0 := sorted[0] + jobs[i]]) == multiset(LoadsAfter(jobs, i + 1, m))
  {
    var before := LoadsAfter(jobs, i, m);
    HeadIsLeastLoaded(sorted, before, jobs[i]);
    GreedyStep(jobs, i, m);
  }

  lemma HeapMaximum(heap: seq<real>, durations: seq<real>, m: nat)
    requires m >= 1 && |heap| == m
    requires multiset(heap) == multiset(LoadsAfter(Sort(true, durations), |durations|, m))
    ensures MaxOf(heap) == LongestFirst(durations, m)
  {
    var jobs := Sort(true, durations);
    assert jobs[..|jobs|] == jobs;
    MaxDependsOnMultiset(heap, Loads(Greedy(jobs, m), jobs, m));
  }

  /** Job i goes to worker i modulo m. */
  function RoundRobin(n: nat, m: nat): (f: seq<nat>)
    requires m >= 1
    ensures Assignment(f, n, m) && |f| == n && forall i :: 0 <= i < n ==> f[i] == i % m
  {
    seq(n, i requires 0 <= i < n => i % m)
  }

  method ShardTailMs(durations: seq<real>, shards: int) returns (tail: real)
    ensures tail == Makespan(RoundRobin(|durations|, WorkerCount(shards)), durations, WorkerCount(shards))
  {
    var m := WorkerCount(shards);
    var buckets := new real[m](_ => 0.0);
    for index := 0 to |durations|
      invariant buckets[..] == Loads(RoundRobin(index, m), durations[..index], m)
    {
      ghost var before := buckets[..];
      buckets[index % m] := buckets[index % m] + durations[index];
      assert RoundRobin(index + 1, m)[..index] == RoundRobin(index, m);
      assert durations[..index + 1][..index] == durations[..index];
      assert buckets[..] == before[index % m := before[index % m] + durations[index]];
    }
    assert durations[..|durations|] == durations;
    tail := MaxOf(buckets[..]);
  }

  lemma MaxDependsOnMultiset(s: seq<real>, t: seq<real>)
    requires s != [] && multiset(s) == multiset(t)
    ensures t != [] && MaxOf(s) == MaxOf(t)
  {
    assert |s| == |multiset(s)| == |multiset(t)| == |t|;
    assert MaxOf(s) in multiset(t) && MaxOf(t) in multiset(s);
    var i :| 0 <= i < |t| && t[i] == MaxOf(s);
    var j :| 0 <= j < |s| && s[j] == MaxOf(t);
  }

  /** Replacing the head of the sorted heap is replacing the least loaded worker's load. */
  lemma HeadIsLeastLoaded(heap: seq<real>, loads: seq<real>, d: real)
    requires heap != [] && Sorted(false, heap) && multiset(heap) == multiset(loads)
    ensures loads != []
    ensures var k := LeastLoaded(loads);
            heap[0] == loads[k] && multiset(heap[0 := heap[0] + d]) == multiset(loads[k := loads[k] + d])
  {
    assert |heap| == |multiset(heap)| == |multiset(loads)| == |loads|;
    var k := LeastLoaded(loads);
    assert heap[0] in multiset(loads) && loads[k] in multiset(heap);
    var i :| 0 <= i < |loads| && loads[i] == heap[0];
    var j :| 0 <= j < |heap| && heap[j] == loads[k];
    assert j > 0 ==> Before(false, heap[0], heap[j]);
  }

  /** The sorted-heap loop computes the named-worker schedule, so Graham's bound is its guarantee. */
  method DynamicTailMs(durations: seq<real>, workers: int) returns (tail: real)
    ensures tail == LongestFirst(durations, WorkerCount(workers))
    ensures NonNegative(durations) ==> WithinGrahamOfAll(durations, WorkerCount(workers), tail)
  {
    var m := WorkerCount(workers);
    var heap := seq(m, _ => 0.0);
    var jobs := Sort(true, durations);
    assert heap == LoadsAfter(jobs, 0, m);
    for i := 0 to |jobs|
      invariant |heap| == m
      invariant multiset(heap) == multiset(LoadsAfter(jobs, i, m))
    {
      heap := Sort(false, heap);
      HeapStep(heap, jobs, i, m);
      heap := heap[0 := heap[0] + jobs[i]];
    }
    HeapMaximum(heap, durations, m);
    tail := MaxOf(heap);
    if NonNegative(durations) {
      LongestFirstWithinGrahamOfAll(durations, m);
    }
  }

  datatype Comparison = Comparison(shardMs: real, dynamicMs: real, dynamicWins: bool)

  method CompareQueueTails(durations: seq<real>, workers: int) returns (c: Comparison)
    ensures c.dynamicWins <==> c.dynamicMs < c.shardMs
    ensures c.dynamicMs == LongestFirst(durations, WorkerCount(workers))
    ensures NonNegative(durations) ==> c.dynamicMs <= GrahamBound(WorkerCount(workers), c.shardMs)
  {
    var shardMs := ShardTailMs(durations, workers);
    var dynamicMs := DynamicTailMs(durations, workers);
    c := Comparison(shardMs, dynamicMs, dynamicMs < shardMs);
  }

  lemma {:induction false} SortKeepsSorted(s: seq<real>)
    requires Sorted(true, s)
    ensures Sort(true, s) == s
  {
    if s != [] {
      SortKeepsSorted(s[..|s| - 1]);
    }
  }

  lemma LoadStep(f: seq<nat>, p: seq<real>, n: nat, k: nat)
    requires |f| == |p| && n < |p|
    ensures Load(f[..n + 1], p[..n + 1], k) == Load(f[..n], p[..n], k) + if f[n] == k then p[n] else 0.0
  {
    assert f[..n + 1][..n] == f[..n] && p[..n + 1][..n] == p[..n];
  }

  ghost predicate IsExample(d: seq<real>) {
    |d| == 5 && d[0] == d[1] == 3.0 && d[2] == d[3] == d[4] == 2.0
  }

  lemma ExampleOptimum(d: seq<real>, f: seq<nat>)
    requires IsExample(d) && |f| == 5 && f[0] == f[1] == 0 && f[2] == f[3] == f[4] == 1
    ensures Makespan(f, d, 2) == 6.0
  {
    for i := 0 to 5
      invariant Load(f[..i], d[..i], 0) == [0.0, 3.0, 6.0, 6.0, 6.0, 6.0][i]
      invariant Load(f[..i], d[..i], 1) == [0.0, 0.0, 0.0, 2.0, 4.0, 6.0][i]
    {
      LoadStep(f, d, i, 0);
      LoadStep(f, d, i, 1);
    }
    assert f[..5] == f && d[..5] == d;
  }

  lemma ScheduleStep(jobs: seq<real>, i: nat, a: real, b: real)
    requires i < |jobs| && LoadsAfter(jobs, i, 2) == [a, b]
    ensures LoadsAfter(jobs, i + 1, 2) == if b < a then [a, b + jobs[i]] else [a + jobs[i], b]
  {
    GreedyStep(jobs, i, 2);
    assert [a, b][..1] == [a];
    assert LeastLoaded([a, b]) == if b < a then 1 else 0;
  }

  lemma ExampleScheduled(jobs: seq<real>)
    requires IsExample(jobs)
    ensures LoadsAfter(jobs, 5, 2) == [7.0, 5.0]
  {
    for i := 0 to 5
      invariant LoadsAfter(jobs, i, 2) == [[0.0, 3.0, 3.0, 5.0, 5.0, 7.0][i], [0.0, 0.0, 3.0, 3.0, 5.0, 5.0][i]]
    {
      ScheduleStep(jobs, i, [0.0, 3.0, 3.0, 5.0, 5.0, 7.0][i], [0.0, 0.0, 3.0, 3.0, 5.0, 5.0][i]);
    }
  }

  lemma ExampleTail(d: seq<real>)
    requires IsExample(d)
    ensures LongestFirst(d, 2) == 7.0
  {
    SortKeepsSorted(d);
    ExampleScheduled(d);
    HeapMaximum(LoadsAfter(d, 5, 2), d, 2);
  }

  /** The guarantee cannot be improved: two workers, durations 3 3 2 2 2. */
  lemma GrahamBoundIsReached(d: seq<real>)
    requires IsExample(d)
    ensures exists f :: Assignment(f, |d|, 2) && LongestFirst(d, 2) == GrahamBound(2, Makespan(f, d, 2))
  {
    var f: seq<nat> := [0, 0, 1, 1, 1];
    ExampleOptimum(d, f);
    ExampleTail(d);
    assert Assignment(f, |d|, 2);
  }
}
