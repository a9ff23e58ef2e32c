/** Per-run and pooled statistics of a metric (analysis/aggregate_runs.py). */
module Percentile {
  import opened Wrappers
  import opened Sorting

  // ----- sorting

  const VALUE: int -> int := (x: int) => x

  ghost predicate Sorted(s: seq<int>) {
    forall i, j | 0 <= i < j < |s| :: s[i] <= s[j]
  }

  function Ordered(s: seq<int>): (r: seq<int>)
    ensures |r| == |s|
  {
    Sort(s, VALUE)
  }

  lemma OrderedSorted(s: seq<int>)
    ensures Sorted(Ordered(s)) && multiset(Ordered(s)) == multiset(s)
  {
    SortSorted(s, VALUE);
  }

  // ----- counting

  function CountLe(s: seq<int>, v: int): (n: nat)
    ensures n <= |s|
  {
    if s == [] then 0 else CountLe(s[..|s| - 1], v) + One(s[|s| - 1] <= v)
  }

  /** Values are integers: fewer than v means at most v - 1. */
  function CountLt(s: seq<int>, v: int): nat { CountLe(s, v - 1) }

  lemma {:induction false} CountConcat(a: seq<int>, b: seq<int>, v: int)
    ensures CountLe(a + b, v) == CountLe(a, v) + CountLe(b, v)
    decreases |b|
  {
    if b == [] {
      assert a + b == a;
    } else {
      assert (a + b)[..|a + b| - 1] == a + b[..|b| - 1];
      CountConcat(a, b[..|b| - 1], v);
    }
  }

  lemma {:induction false} CountMonotone(s: seq<int>, v: int, w: int)
    requires v <= w
    ensures CountLe(s, v) <= CountLe(s, w)
    decreases |s|
  {
    if s != [] {
      CountMonotone(s[..|s| - 1], v, w);
    }
  }

  lemma CountWithout(b: seq<int>, i: nat, v: int)
    requires i < |b|
    ensures CountLe(b, v) == CountLe(Without(b, i), v) + One(b[i] <= v)
  {
    var x := b[i];
    assert b == b[..i] + [x] + b[i + 1..];
    CountConcat(b[..i] + [x], b[i + 1..], v);
    CountConcat(b[..i], [x], v);
    CountConcat(b[..i], b[i + 1..], v);
    CountOne(x, v);
  }

  /** Counts see the multiset only. */
  lemma {:induction false} CountPermuted(a: seq<int>, b: seq<int>, v: int)
    requires multiset(a) == multiset(b)
    ensures CountLe(a, v) == CountLe(b, v) && |a| == |b|
    decreases |a|
  {
    assert |multiset(a)| == |a| && |multiset(b)| == |b|;
    if a != [] {
      var j := |a| - 1;
      assert a[j] in multiset(b);
      var i :| 0 <= i < |b| && b[i] == a[j];
      SameRest(a, b, j, i);
      CountPermuted(Without(a, j), Without(b, i), v);
      CountWithout(a, j, v);
      CountWithout(b, i, v);
    }
  }

  lemma CountOne(x: int, v: int)
    ensures CountLe([x], v) == One(x <= v)
  {
    assert [x][..0] == [];
  }

  lemma {:induction false} CountInSorted(s: seq<int>, i: nat)
    requires Sorted(s) && i < |s|
    ensures CountLt(s, s[i]) <= i < CountLe(s, s[i])
    decreases |s|
  {
    var init := s[..|s| - 1];
    if i < |init| {
      CountInSorted(init, i);
    } else {
      AllCounted(init, s[i]);
    }
  }

  lemma {:induction false} AllCounted(s: seq<int>, v: int)
    requires forall i | 0 <= i < |s| :: s[i] <= v
    ensures CountLe(s, v) == |s|
    decreases |s|
  {
    if s != [] {
      AllCounted(s[..|s| - 1], v);
    }
  }

  // ----- nearest rank

  /** max(0, ceil(p * n / 100) - 1). */
  function RankIndex(p: nat, n: nat): (i: nat) {
    var ceiling := (p * n + 99) / 100;
    if ceiling == 0 then 0 else ceiling - 1
  }

  lemma RankArithmetic(p: nat, n: nat)
    requires 0 < n && p <= 100
    ensures RankIndex(p, n) < n
    ensures 0 < p ==> RankIndex(p, n) * 100 < p * n <= (RankIndex(p, n) + 1) * 100
  {
    var need := p * n;
    Grows(p, 100, n);
    if p > 0 {
      Grows(1, p, n);
    }
  }

  lemma Grows(p: nat, q: nat, n: nat)
    requires p <= q
    ensures p * n <= q * n
  {
  }

  function NearestRank(s: seq<int>, p: nat): (v: int)
    requires s != [] && p <= 100
  {
    RankArithmetic(p, |s|);
    Ordered(s)[RankIndex(p, |s|)]
  }

  /** What nearest rank means, with no mention of order: `need` hundredths of the samples
      are at or below the value, and not as many are below it. */
  predicate IsRank(s: seq<int>, need: int, v: int) {
    CountLt(s, v) * 100 < need <= CountLe(s, v) * 100
  }

  lemma NearestRankIsRank(s: seq<int>, p: nat)
    requires s != [] && 0 < p <= 100
    ensures IsRank(s, p * |s|, NearestRank(s, p)) && NearestRank(s, p) in s
  {
    RankArithmetic(p, |s|);
    OrderedSorted(s);
    var t, i := Ordered(s), RankIndex(p, |s|);
    assert t[i] in multiset(t);
    RankInSorted(s, t, i, p * |s|);
  }

  lemma RankInSorted(s: seq<int>, t: seq<int>, i: nat, need: int)
    requires Sorted(t) && multiset(s) == multiset(t) && i < |t| && i * 100 < need <= (i + 1) * 100
    ensures IsRank(s, need, t[i])
  {
    CountInSorted(t, i);
    CountPermuted(t, s, t[i]);
    CountPermuted(t, s, t[i] - 1);
  }

  /** A larger share has a rank at least as large, and at most one value is the rank. */
  lemma RankGrows(s: seq<int>, need: int, more: int, v: int, w: int)
    requires IsRank(s, need, v) && IsRank(s, more, w) && need <= more
    ensures v <= w
  {
    if w < v {
      CountMonotone(s, w, v - 1);
    }
  }

  /** The order of the samples does not matter. */
  lemma OrderIrrelevant(a: seq<int>, b: seq<int>, p: nat)
    requires a != [] && b != [] && 0 < p <= 100 && multiset(a) == multiset(b)
    ensures NearestRank(a, p) == NearestRank(b, p)
  {
    NearestRankIsRank(a, p);
    NearestRankIsRank(b, p);
    var v, w := NearestRank(a, p), NearestRank(b, p);
    CountPermuted(a, b, w);
    CountPermuted(a, b, w - 1);
    RankGrows(a, p * |a|, p * |a|, v, w);
    RankGrows(a, p * |a|, p * |a|, w, v);
  }

  /** Percentiles grow with the percentage, up to the maximum. */
  lemma PercentilesOrdered(s: seq<int>, p: nat, q: nat)
    requires s != [] && 0 < p <= q <= 100
    ensures NearestRank(s, p) <= NearestRank(s, q)
  {
    NearestRankIsRank(s, p);
    NearestRankIsRank(s, q);
    Grows(p, q, |s|);
    RankGrows(s, p * |s|, q * |s|, NearestRank(s, p), NearestRank(s, q));
  }

  lemma HundredIsMaximum(s: seq<int>, i: nat)
    requires s != [] && i < |s|
    ensures s[i] <= NearestRank(s, 100) && NearestRank(s, 100) in s
  {
    NearestRankIsRank(s, 100);
    if s[i] > NearestRank(s, 100) {
      SomeAbove(s, NearestRank(s, 100), i);
    }
  }

  lemma {:induction false} SomeAbove(s: seq<int>, v: int, i: nat)
    requires i < |s| && s[i] > v
    ensures CountLe(s, v) < |s|
    decreases |s|
  {
    if i < |s| - 1 {
      SomeAbove(s[..|s| - 1], v, i);
    }
  }

  // ----- pooling

  ghost predicate Bounds(runs: seq<seq<int>>, p: nat, lo: int, hi: int)
    requires p <= 100
  {
    forall i | 0 <= i < |runs| && runs[i] != [] :: lo <= NearestRank(runs[i], p) <= hi
  }

  /** At most `hi` there are `need` hundredths of the samples, and below `lo` not as many. */
  predicate Enough(s: seq<int>, need: int, lo: int, hi: int) {
    && need <= CountLe(s, hi) * 100
    && (if s == [] then need == 0 else CountLt(s, lo) * 100 < need)
  }

  lemma RunWithinBounds(s: seq<int>, p: nat, lo: int, hi: int)
    requires 0 < p <= 100 && s != [] && lo <= NearestRank(s, p) <= hi
    ensures Enough(s, p * |s|, lo, hi)
  {
    NearestRankIsRank(s, p);
    CountMonotone(s, NearestRank(s, p), hi);
    CountMonotone(s, lo - 1, NearestRank(s, p) - 1);
  }

  lemma EnoughAdds(a: seq<int>, b: seq<int>, m: int, n: int, lo: int, hi: int)
    requires Enough(a, m, lo, hi) && Enough(b, n, lo, hi)
    ensures Enough(a + b, m + n, lo, hi)
  {
    CountConcat(a, b, hi);
    CountConcat(a, b, lo - 1);
  }

  lemma Distribute(p: nat, x: nat, y: nat)
    ensures p * (x + y) == p * x + p * y
  {
  }

  lemma OneMoreRun(pool: seq<int>, run: seq<int>, p: nat, lo: int, hi: int)
    requires 0 < p <= 100 && Enough(pool, p * |pool|, lo, hi) && (run != [] ==> lo <= NearestRank(run, p) <= hi)
    ensures Enough(pool + run, p * |pool + run|, lo, hi)
  {
    if run == [] {
      assert pool + run == pool;
    } else {
      RunWithinBounds(run, p, lo, hi);
      Distribute(p, |pool|, |run|);
      EnoughAdds(pool, run, p * |pool|, p * |run|, lo, hi);
    }
  }

  lemma {:induction false} PoolEnough(runs: seq<seq<int>>, p: nat, lo: int, hi: int)
    requires 0 < p <= 100 && Bounds(runs, p, lo, hi)
    ensures Enough(Flatten(runs), p * |Flatten(runs)|, lo, hi)
    decreases |runs|
  {
    if runs != [] {
      PoolEnough(runs[..|runs| - 1], p, lo, hi);
      OneMoreRun(Flatten(runs[..|runs| - 1]), runs[|runs| - 1], p, lo, hi);
    }
  }

  /** The pooled percentile lies between the smallest and the largest percentile of the
      runs that have samples, however many each run contributes. */
  lemma PooledBetweenRuns(runs: seq<seq<int>>, p: nat, lo: int, hi: int)
    requires 0 < p <= 100 && Flatten(runs) != [] && Bounds(runs, p, lo, hi)
    ensures lo <= NearestRank(Flatten(runs), p) <= hi
  {
    NearestRankIsRank(Flatten(runs), p);
    PoolEnough(runs, p, lo, hi);
    RankBetween(Flatten(runs), p * |Flatten(runs)|, NearestRank(Flatten(runs), p), lo, hi);
  }

  lemma RankBetween(s: seq<int>, need: int, v: int, lo: int, hi: int)
    requires IsRank(s, need, v) && CountLt(s, lo) * 100 < need <= CountLe(s, hi) * 100
    ensures lo <= v <= hi
  {
    if v < lo {
      CountMonotone(s, v, lo - 1);
    }
    if hi < v {
      CountMonotone(s, hi, v - 1);
    }
  }

  // ----- the statistics

  datatype Statistics = Statistics(
    count: nat, negatives: nat, p50: Option<int>, p95: Option<int>, p99: Option<int>, max: Option<int>, misses: Option<nat>)

  function Misses(s: seq<int>, deadline: Option<int>): Option<nat> {
    if deadline.None? then None else Some(|s| - CountLe(s, deadline.value))
  }

  function Rank(s: seq<int>, p: nat): Option<int>
    requires p <= 100
  {
    if s == [] then None else Some(NearestRank(s, p))
  }

  /** The last of the ordered samples. */
  function Maximum(s: seq<int>): int
    requires s != []
  {
    Ordered(s)[|s| - 1]
  }

  function StatisticsOf(s: seq<int>, deadline: Option<int>): Statistics {
    Statistics(|s|, CountLt(s, 0), Rank(s, 50), Rank(s, 95), Rank(s, 99), if s == [] then None else Some(Maximum(s)), Misses(s, deadline))
  }

  /** p50 <= p95 <= p99 <= max, and the maximum is one of the samples and bounds them all. */
  lemma StatisticsOrdered(s: seq<int>)
    requires s != []
    ensures NearestRank(s, 50) <= NearestRank(s, 95) <= NearestRank(s, 99) <= Maximum(s)
    ensures Maximum(s) in s && forall i | 0 <= i < |s| :: s[i] <= Maximum(s)
  {
    PercentilesOrdered(s, 50, 95);
    PercentilesOrdered(s, 95, 99);
    PercentilesOrdered(s, 99, 100);
    MaximumIsRank(s);
    forall i | 0 <= i < |s|
      ensures s[i] <= Maximum(s) && Maximum(s) in s
    {
      HundredIsMaximum(s, i);
    }
    HundredIsMaximum(s, 0);
  }

  lemma MaximumIsRank(s: seq<int>)
    requires s != []
    ensures Maximum(s) == NearestRank(s, 100)
  {
    assert RankIndex(100, |s|) == |s| - 1;
  }

  lemma RankPermuted(a: seq<int>, b: seq<int>, p: nat)
    requires multiset(a) == multiset(b) && 0 < p <= 100
    ensures Rank(a, p) == Rank(b, p) && |a| == |b|
  {
    CountPermuted(a, b, 0);
    if a != [] {
      OrderIrrelevant(a, b, p);
    }
  }

  /** Every statistic sees the multiset of the samples only. */
  lemma StatisticsPermuted(a: seq<int>, b: seq<int>, deadline: Option<int>)
    requires multiset(a) == multiset(b)
    ensures StatisticsOf(a, deadline) == StatisticsOf(b, deadline)
  {
    RankPermuted(a, b, 50);
    RankPermuted(a, b, 95);
    RankPermuted(a, b, 99);
    RankPermuted(a, b, 100);
    CountPermuted(a, b, -1);
    if deadline.Some? {
      CountPermuted(a, b, deadline.value);
    }
    if a != [] {
      MaximumIsRank(a);
      MaximumIsRank(b);
    }
  }

  lemma {:induction false} SamplesPermuted(a: seq<seq<int>>, b: seq<seq<int>>)
    requires |a| == |b| && forall i | 0 <= i < |a| :: multiset(a[i]) == multiset(b[i])
    ensures multiset(Flatten(a)) == multiset(Flatten(b))
    decreases |a|
  {
    if a != [] {
      SamplesPermuted(a[..|a| - 1], b[..|b| - 1]);
    }
  }

  /** Permuting the runs, and the samples within every run, changes no pooled statistic. */
  lemma PooledOrderIrrelevant(runs: seq<seq<int>>, shuffled: seq<seq<int>>, resampled: seq<seq<int>>, deadline: Option<int>)
    requires multiset(runs) == multiset(shuffled) && |resampled| == |shuffled|
    requires forall i | 0 <= i < |shuffled| :: multiset(resampled[i]) == multiset(shuffled[i])
    ensures StatisticsOf(Flatten(runs), deadline) == StatisticsOf(Flatten(resampled), deadline)
  {
    FlattenPermuted(runs, shuffled);
    SamplesPermuted(resampled, shuffled);
    StatisticsPermuted(Flatten(runs), Flatten(resampled), deadline);
  }

  /** At least `percent` hundredths of the samples are at or below v, and fewer below it. */
  predicate IsPercentile(s: seq<int>, percent: nat, v: int) {
    v in s && CountLt(s, v) * 100 < percent * |s| <= CountLe(s, v) * 100
  }

  predicate IsMaximum(s: seq<int>, v: int) {
    v in s && forall i | 0 <= i < |s| :: s[i] <= v
  }

  /** Which number stands in which field. */
  predicate StatisticsSay(st: Statistics, s: seq<int>, deadline: Option<int>) {
    && st.count == |s| && st.negatives == CountLt(s, 0)
    && (st.p50.Some? <==> s != []) && (st.p95.Some? <==> s != []) && (st.p99.Some? <==> s != []) && (st.max.Some? <==> s != [])
    && (s != [] ==> IsPercentile(s, 50, st.p50.value) && IsPercentile(s, 95, st.p95.value) && IsPercentile(s, 99, st.p99.value)
                    && IsMaximum(s, st.max.value))
    && (st.misses.Some? <==> deadline.Some?) && (deadline.Some? ==> st.misses.value == |s| - CountLe(s, deadline.value))
  }

  lemma StatisticsMeaning(s: seq<int>, deadline: Option<int>)
    ensures StatisticsSay(StatisticsOf(s, deadline), s, deadline)
  {
    if s != [] {
      NearestRankIsRank(s, 50);
      NearestRankIsRank(s, 95);
      NearestRankIsRank(s, 99);
      StatisticsOrdered(s);
    }
  }

  datatype Totals = Totals(count: nat, negatives: nat, misses: nat)

  /** The sums of the per-run counts. */
  function SumCounts(runs: seq<seq<int>>, deadline: int): Totals {
    if runs == [] then Totals(0, 0, 0)
    else
      var t := SumCounts(runs[..|runs| - 1], deadline);
      var run := runs[|runs| - 1];
      Totals(t.count + |run|, t.negatives + CountLt(run, 0), t.misses + (|run| - CountLe(run, deadline)))
  }

  /** The pooled counts are the sums of the counts of the runs. */
  lemma {:induction false} PooledCountsAdd(runs: seq<seq<int>>, deadline: int)
    ensures var p := Flatten(runs);
            SumCounts(runs, deadline) == Totals(|p|, CountLt(p, 0), |p| - CountLe(p, deadline))
    decreases |runs|
  {
    if runs != [] {
      var init, last := Flatten(runs[..|runs| - 1]), runs[|runs| - 1];
      PooledCountsAdd(runs[..|runs| - 1], deadline);
      CountConcat(init, last, -1);
      CountConcat(init, last, deadline);
    }
  }

  /** sum(... for value in values), in one pass. */
  method CountAbove(values: seq<int>, deadline: int) returns (misses: nat, negatives: nat)
    ensures misses == |values| - CountLe(values, deadline) && negatives == CountLt(values, 0)
  {
    misses, negatives := 0, 0;
    for i := 0 to |values|
      invariant misses == i - CountLe(values[..i], deadline) && negatives == CountLt(values[..i], 0)
    {
      assert values[..i + 1][..i] == values[..i];
      misses := misses + One(values[i] > deadline);
      negatives := negatives + One(values[i] < 0);
    }
    assert values[..|values|] == values;
  }

  method PoolRuns(runs: seq<seq<int>>) returns (pool: seq<int>)
    ensures pool == Flatten(runs)
  {
    pool := [];
    for i := 0 to |runs|
      invariant pool == Flatten(runs[..i])
    {
      assert runs[..i + 1][..i] == runs[..i];
      pool := pool + runs[i];
    }
    assert runs[..|runs|] == runs;
  }

  // ----- the runs that have samples, and the ones that miss the deadline

  datatype RunLevel = RunLevel(total: nat, withSamples: nat, withoutSamples: nat, withMisses: Option<nat>)

  predicate HasMiss(run: seq<int>, deadline: int) { CountLe(run, deadline) < |run| }

  function WithSamples(runs: seq<seq<int>>): (n: nat)
    ensures n <= |runs|
  {
    if runs == [] then 0 else WithSamples(runs[..|runs| - 1]) + One(runs[|runs| - 1] != [])
  }

  function WithMisses(runs: seq<seq<int>>, deadline: int): (n: nat)
    ensures n <= |runs|
  {
    if runs == [] then 0 else WithMisses(runs[..|runs| - 1], deadline) + One(HasMiss(runs[|runs| - 1], deadline))
  }

  /** Only runs with samples miss, a run misses exactly if the pool does, and no run misses
      more than once for itself. */
  lemma {:induction false} RunLevelFacts(runs: seq<seq<int>>, deadline: int)
    ensures WithMisses(runs, deadline) <= WithSamples(runs)
    ensures WithMisses(runs, deadline) <= |Flatten(runs)| - CountLe(Flatten(runs), deadline)
    ensures WithMisses(runs, deadline) == 0 <==> !HasMiss(Flatten(runs), deadline)
    ensures WithSamples(runs) == 0 <==> Flatten(runs) == []
    decreases |runs|
  {
    if runs != [] {
      RunLevelFacts(runs[..|runs| - 1], deadline);
      CountConcat(Flatten(runs[..|runs| - 1]), runs[|runs| - 1], deadline);
    }
  }

  /** The counting of runs, from the statistics kept of each. */
  method CountRuns(runs: seq<seq<int>>, kept: seq<Statistics>, deadline: Option<int>) returns (level: RunLevel)
    requires |kept| == |runs| && forall i | 0 <= i < |runs| :: kept[i].misses == Misses(runs[i], deadline)
    ensures level.total == |runs| == level.withSamples + level.withoutSamples && level.withSamples == WithSamples(runs)
    ensures level.withMisses == if deadline.None? then None else Some(WithMisses(runs, deadline.value))
  {
    var samples, misses := 0, 0;
    for i := 0 to |runs|
      invariant samples == WithSamples(runs[..i]) && (deadline.Some? ==> misses == WithMisses(runs[..i], deadline.value))
    {
      assert runs[..i + 1][..i] == runs[..i];
      samples := samples + One(runs[i] != []);
      misses := misses + One(deadline.Some? && kept[i].misses.value > 0);
    }
    assert runs[..|runs|] == runs;
    level := RunLevel(|runs|, samples, |runs| - samples, if deadline.None? then None else Some(misses));
  }

  // ----- all metrics of all runs

  /** What the runs have for one metric; `runs[i][m]` are the samples of metric m in run i. */
  function Column(runs: seq<seq<seq<int>>>, m: nat): (c: seq<seq<int>>)
    requires forall i | 0 <= i < |runs| :: m < |runs[i]|
    ensures |c| == |runs| && forall i | 0 <= i < |runs| :: c[i] == runs[i][m]
  {
    seq(|runs|, i requires 0 <= i < |runs| => runs[i][m])
  }

  method SummarizeRun(values: seq<seq<int>>, deadline: Option<int>) returns (st: seq<Statistics>)
    ensures |st| == |values| && forall m | 0 <= m < |values| :: st[m] == StatisticsOf(values[m], deadline)
  {
    st := [];
    for m := 0 to |values|
      invariant |st| == m && forall k | 0 <= k < m :: st[k] == StatisticsOf(values[k], deadline)
    {
      st := st + [StatisticsOf(values[m], deadline)];
    }
  }

  method SummarizeRuns(runs: seq<seq<seq<int>>>, deadline: Option<int>) returns (st: seq<seq<Statistics>>)
    ensures |st| == |runs| && forall i | 0 <= i < |runs| :: |st[i]| == |runs[i]|
    ensures forall i, m | 0 <= i < |runs| && 0 <= m < |runs[i]| :: st[i][m] == StatisticsOf(runs[i][m], deadline)
  {
    st := [];
    for i := 0 to |runs|
      invariant |st| == i && forall j | 0 <= j < i :: |st[j]| == |runs[j]|
      invariant forall j, m | 0 <= j < i && 0 <= m < |runs[j]| :: st[j][m] == StatisticsOf(runs[j][m], deadline)
    {
      var one := SummarizeRun(runs[i], deadline);
      st := st + [one];
    }
  }

  /** One metric of aggregate_runs: the pool is filled run by run, and its counts are those
      of the runs together. */
  method AggregateMetric(runs: seq<seq<int>>, kept: seq<Statistics>, deadline: Option<int>) returns (pooled: Statistics, level: RunLevel)
    requires |kept| == |runs| && forall i | 0 <= i < |runs| :: kept[i].misses == Misses(runs[i], deadline)
    ensures pooled == StatisticsOf(Flatten(runs), deadline) && PooledOk(runs, deadline, pooled, level)
  {
    var pool := PoolRuns(runs);
    pooled := StatisticsOf(pool, deadline);
    level := CountRuns(runs, kept, deadline);
    PooledFits(runs, deadline, pooled.count, pooled.negatives, pooled.misses, level);
  }

  lemma PooledFits(runs: seq<seq<int>>, deadline: Option<int>, count: nat, negatives: nat, misses: Option<nat>, level: RunLevel)
    requires var pool := Flatten(runs); count == |pool| && negatives == CountLt(pool, 0) && misses == Misses(pool, deadline)
    requires level.total == |runs| == level.withSamples + level.withoutSamples && level.withSamples == WithSamples(runs)
    requires level.withMisses == if deadline.None? then None else Some(WithMisses(runs, deadline.value))
    ensures CountsFit(runs, deadline, count, negatives, misses, level)
  {
    var d := if deadline.Some? then deadline.value else 0;
    PooledCountsAdd(runs, d);
    RunLevelFacts(runs, d);
  }

  /** How the pooled counts of a metric and the counts of its runs hang together. */
  predicate CountsFit(runs: seq<seq<int>>, deadline: Option<int>, count: nat, negatives: nat, misses: Option<nat>, level: RunLevel) {
    var t := SumCounts(runs, if deadline.Some? then deadline.value else 0);
    && count == t.count && negatives == t.negatives
    && misses == (if deadline.Some? then Some(t.misses) else None)
    && level.total == |runs| == level.withSamples + level.withoutSamples && level.withSamples == WithSamples(runs)
    && (level.withMisses.Some? <==> deadline.Some?)
    && (level.withSamples == 0 <==> count == 0)
    && (deadline.Some? ==>
          && level.withMisses.value == WithMisses(runs, deadline.value) <= level.withSamples
          && level.withMisses.value <= misses.value
          && (level.withMisses.value == 0 <==> misses.value == 0))
  }

  predicate PooledOk(runs: seq<seq<int>>, deadline: Option<int>, pooled: Statistics, level: RunLevel) {
    CountsFit(runs, deadline, pooled.count, pooled.negatives, pooled.misses, level)
  }

  /** What is kept of every run is enough to count runs by. */
  predicate MissesKept(perRun: seq<seq<Statistics>>, runs: seq<seq<seq<int>>>, metrics: nat, deadline: Option<int>) {
    && |perRun| == |runs| && (forall i | 0 <= i < |runs| :: |perRun[i]| == |runs[i]| == metrics)
    && forall i, m | 0 <= i < |runs| && 0 <= m < metrics :: perRun[i][m].misses == Misses(runs[i][m], deadline)
  }

  /** A metric's pooled statistics are those of all its samples together. */
  predicate MetricOk(runs: seq<seq<int>>, deadline: Option<int>, pooled: Statistics, level: RunLevel) {
    pooled == StatisticsOf(Flatten(runs), deadline) && PooledOk(runs, deadline, pooled, level)
  }

  method AggregateMetrics(runs: seq<seq<seq<int>>>, perRun: seq<seq<Statistics>>, metrics: nat, deadline: Option<int>)
    returns (pooled: seq<Statistics>, levels: seq<RunLevel>)
    requires MissesKept(perRun, runs, metrics, deadline)
    ensures |pooled| == |levels| == metrics
    ensures forall m | 0 <= m < metrics :: MetricOk(Column(runs, m), deadline, pooled[m], levels[m])
  {
    pooled, levels := [], [];
    for m := 0 to metrics
      invariant |pooled| == |levels| == m
      invariant forall k | 0 <= k < m :: MetricOk(Column(runs, k), deadline, pooled[k], levels[k])
    {
      var kept := seq(|runs|, i requires 0 <= i < |runs| => perRun[i][m]);
      var one, level := AggregateMetric(Column(runs, m), kept, deadline);
      pooled, levels := pooled + [one], levels + [level];
    }
  }

  /** aggregate_runs, over all metrics of all runs. */
  method Aggregate(runs: seq<seq<seq<int>>>, metrics: nat, deadline: Option<int>)
    returns (perRun: seq<seq<Statistics>>, pooled: seq<Statistics>, levels: seq<RunLevel>)
    requires forall i | 0 <= i < |runs| :: |runs[i]| == metrics
    ensures |perRun| == |runs| && forall i | 0 <= i < |runs| :: |perRun[i]| == metrics
    ensures forall i, m | 0 <= i < |runs| && 0 <= m < metrics :: perRun[i][m] == StatisticsOf(runs[i][m], deadline)
    ensures |pooled| == |levels| == metrics
    ensures forall m | 0 <= m < metrics :: MetricOk(Column(runs, m), deadline, pooled[m], levels[m])
  {
    perRun := SummarizeRuns(runs, deadline);
    pooled, levels := AggregateMetrics(runs, perRun, metrics, deadline);
  }
}
