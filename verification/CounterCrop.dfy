/** Counter deltas cropped to the measurement window (analysis/analyze_experiment.py).
    Times are integers; fractions are exact rationals where the analyzer uses floats. */
module CounterCrop {

  /** One observation of a set of counters. */
  datatype Sample = Sample(time: int, counters: seq<int>)

  predicate Increasing(s: seq<Sample>) {
    forall i | 0 <= i < |s| - 1 :: s[i].time < s[i + 1].time
  }

  predicate SameWidth(s: seq<Sample>, width: nat) {
    forall i | 0 <= i < |s| :: |s[i].counters| == width
  }

  function Min(a: int, b: int): int { if a <= b then a else b }
  function Max(a: int, b: int): int { if a >= b then a else b }

  /** How much of one sampling interval lies in the window. */
  function Overlap(before: int, after: int, start: int, end: int): (o: int)
    ensures o >= 0
  {
    Max(0, Min(end, after) - Max(start, before))
  }

  // ----- one counter

  /** The fraction of an interval that lies in the window. */
  function Fraction(a: Sample, b: Sample, start: int, end: int): real
    requires a.time < b.time
  {
    Overlap(a.time, b.time, start, end) as real / (b.time - a.time) as real
  }

  /** The share of an interval's delta that falls into the window. */
  function Share(a: Sample, b: Sample, k: nat, start: int, end: int): real
    requires a.time < b.time && k < |a.counters| && k < |b.counters|
  {
    (b.counters[k] - a.counters[k]) as real * Fraction(a, b, start, end)
  }

  /** The loop's total for counter k. */
  function Cropped(s: seq<Sample>, width: nat, k: nat, start: int, end: int): real
    requires Increasing(s) && SameWidth(s, width) && k < width
  {
    if |s| < 2 then 0.0
    else Cropped(s[..|s| - 1], width, k, start, end) + Share(s[|s| - 2], s[|s| - 1], k, start, end)
  }

  /** The loop's covered time. */
  function Covered(s: seq<Sample>, start: int, end: int): (c: int) {
    if |s| < 2 then 0 else Covered(s[..|s| - 1], start, end) + Overlap(s[|s| - 2].time, s[|s| - 1].time, start, end)
  }

  // ----- the piecewise linear counter

  function Clamp(t: int, lo: int, hi: int): int
    requires lo <= hi
  {
    if t < lo then lo else if t > hi then hi else t
  }

  /** The counter as a piecewise linear function of time, constant outside the samples. */
  function Level(s: seq<Sample>, width: nat, k: nat, t: int): real
    requires s != [] && Increasing(s) && SameWidth(s, width) && k < width
  {
    if |s| == 1 then s[0].counters[k] as real
    else
      var a, b := s[|s| - 2], s[|s| - 1];
      if t <= a.time then Level(s[..|s| - 1], width, k, t)
      else a.counters[k] as real + (b.counters[k] - a.counters[k]) as real * ((Clamp(t, a.time, b.time) - a.time) as real / (b.time - a.time) as real)
  }

  lemma {:induction false} LevelAtEnd(s: seq<Sample>, width: nat, k: nat, t: int)
    requires s != [] && Increasing(s) && SameWidth(s, width) && k < width && t >= s[|s| - 1].time
    ensures Level(s, width, k, t) == s[|s| - 1].counters[k] as real
    decreases |s|
  {
    if |s| > 1 {
      var a, b := s[|s| - 2], s[|s| - 1];
      WholeIsOne((b.time - a.time) as real);
    }
  }

  lemma WholeIsOne(x: real)
    requires x != 0.0
    ensures x / x == 1.0 && 0.0 / x == 0.0
  {
  }

  lemma TimesZero(x: real, f: real)
    requires f == 0.0
    ensures x * f == 0.0
  {
  }

  lemma Difference(d: real, x: real, y: real, span: real)
    requires span != 0.0
    ensures d * (y / span) - d * (x / span) == d * ((y - x) / span)
  {
    assert y / span - x / span == (y - x) / span;
  }

  /** The share of one interval is the rise of its line over the window. */
  lemma ShareIsRise(a: Sample, b: Sample, start: int, end: int)
    requires a.time < b.time && start <= end
    ensures Overlap(a.time, b.time, start, end) == Clamp(end, a.time, b.time) - Clamp(start, a.time, b.time)
  {
  }

  /** The time inside the window that the samples cover is the part of the window between
      the first and the last sample. */
  lemma {:induction false} CoveredIsClamped(s: seq<Sample>, start: int, end: int)
    requires s != [] && Increasing(s) && start <= end
    ensures s[0].time <= s[|s| - 1].time
    ensures Covered(s, start, end) == Clamp(end, s[0].time, s[|s| - 1].time) - Clamp(start, s[0].time, s[|s| - 1].time)
    decreases |s|
  {
    if |s| > 1 {
      CoveredIsClamped(s[..|s| - 1], start, end);
    }
  }

  /** Full coverage is reported exactly when the samples bracket the window. */
  lemma FullCoverageMeansBracketed(s: seq<Sample>, start: int, end: int)
    requires s != [] && Increasing(s) && start < end
    ensures Covered(s, start, end) == end - start <==> s[0].time <= start && end <= s[|s| - 1].time
  {
    CoveredIsClamped(s, start, end);
  }

  // ----- cropping is the difference of the piecewise linear counter

  /** What the last interval adds to the level at time t. */
  function Rise(a: Sample, b: Sample, k: nat, t: int): real
    requires a.time < b.time && k < |a.counters| && k < |b.counters|
  {
    (b.counters[k] - a.counters[k]) as real * ((Clamp(t, a.time, b.time) - a.time) as real / (b.time - a.time) as real)
  }

  lemma LevelStep(s: seq<Sample>, width: nat, k: nat, t: int)
    requires |s| >= 2 && Increasing(s) && SameWidth(s, width) && k < width
    ensures Level(s, width, k, t) == Level(s[..|s| - 1], width, k, t) + Rise(s[|s| - 2], s[|s| - 1], k, t)
  {
    var init, a, b := s[..|s| - 1], s[|s| - 2], s[|s| - 1];
    if t <= a.time {
      WholeIsOne((b.time - a.time) as real);
      assert Rise(a, b, k, t) == 0.0;
    } else {
      LevelAtEnd(init, width, k, t);
    }
  }

  lemma ShareIsDifference(a: Sample, b: Sample, k: nat, start: int, end: int)
    requires a.time < b.time && k < |a.counters| && k < |b.counters| && start <= end
    ensures Share(a, b, k, start, end) == Rise(a, b, k, end) - Rise(a, b, k, start)
  {
    ShareIsRise(a, b, start, end);
    var x, y := (Clamp(start, a.time, b.time) - a.time) as real, (Clamp(end, a.time, b.time) - a.time) as real;
    Difference((b.counters[k] - a.counters[k]) as real, x, y, (b.time - a.time) as real);
    assert y - x == Overlap(a.time, b.time, start, end) as real;
  }

  /** The cropped total of a counter is the difference of its piecewise linear values at the
      two ends of the window. */
  lemma {:induction false} CroppedIsDifference(s: seq<Sample>, width: nat, k: nat, start: int, end: int)
    requires s != [] && Increasing(s) && SameWidth(s, width) && k < width && start <= end
    ensures Cropped(s, width, k, start, end) == Level(s, width, k, end) - Level(s, width, k, start)
    decreases |s|
  {
    if |s| >= 2 {
      CroppedIsDifference(s[..|s| - 1], width, k, start, end);
      LevelStep(s, width, k, end);
      LevelStep(s, width, k, start);
      ShareIsDifference(s[|s| - 2], s[|s| - 1], k, start, end);
    }
  }

  /** Adjacent windows add up. */
  lemma CroppedIsAdditive(s: seq<Sample>, width: nat, k: nat, start: int, middle: int, end: int)
    requires s != [] && Increasing(s) && SameWidth(s, width) && k < width && start <= middle <= end
    ensures Cropped(s, width, k, start, end) == Cropped(s, width, k, start, middle) + Cropped(s, width, k, middle, end)
  {
    CroppedIsDifference(s, width, k, start, end);
    CroppedIsDifference(s, width, k, start, middle);
    CroppedIsDifference(s, width, k, middle, end);
  }

  lemma {:induction false} LevelAtStart(s: seq<Sample>, width: nat, k: nat)
    requires s != [] && Increasing(s) && SameWidth(s, width) && k < width
    ensures Level(s, width, k, s[0].time) == s[0].counters[k] as real
    decreases |s|
  {
    if |s| >= 2 {
      FirstIsEarliest(s, |s| - 2);
      LevelAtStart(s[..|s| - 1], width, k);
    }
  }

  lemma {:induction false} FirstIsEarliest(s: seq<Sample>, i: nat)
    requires Increasing(s) && i < |s|
    ensures s[0].time <= s[i].time
    decreases i
  {
    if i > 0 {
      FirstIsEarliest(s, i - 1);
    }
  }

  /** A window between two observations gets exactly their counter difference. */
  lemma WholeRangeKeepsDelta(s: seq<Sample>, width: nat, k: nat)
    requires s != [] && Increasing(s) && SameWidth(s, width) && k < width
    ensures s[0].time <= s[|s| - 1].time
    ensures Cropped(s, width, k, s[0].time, s[|s| - 1].time) == (s[|s| - 1].counters[k] - s[0].counters[k]) as real
  {
    FirstIsEarliest(s, |s| - 1);
    CroppedIsDifference(s, width, k, s[0].time, s[|s| - 1].time);
    LevelAtStart(s, width, k);
    LevelAtEnd(s, width, k, s[|s| - 1].time);
  }

  // ----- the network summary

  /** One interval of the loop, over all counters. */
  method AddShares(totals: seq<real>, a: Sample, b: Sample, overlap: int) returns (sums: seq<real>)
    requires a.time < b.time && |totals| == |a.counters| == |b.counters|
    ensures |sums| == |totals|
    ensures forall k | 0 <= k < |totals| ::
              sums[k] == totals[k] + (b.counters[k] - a.counters[k]) as real * (overlap as real / (b.time - a.time) as real)
  {
    sums := totals;
    for k := 0 to |totals|
      invariant |sums| == |totals|
      invariant forall j | 0 <= j < k ::
                  sums[j] == totals[j] + (b.counters[j] - a.counters[j]) as real * (overlap as real / (b.time - a.time) as real)
      invariant forall j | k <= j < |totals| :: sums[j] == totals[j]
    {
      sums := sums[k := sums[k] + (b.counters[k] - a.counters[k]) as real * (overlap as real / (b.time - a.time) as real)];
    }
  }

  predicate TotalsAre(totals: seq<real>, s: seq<Sample>, width: nat, start: int, end: int)
    requires Increasing(s) && SameWidth(s, width)
  {
    |totals| == width && forall k | 0 <= k < width :: totals[k] == Cropped(s, width, k, start, end)
  }

  lemma TotalsStep(s: seq<Sample>, width: nat, i: nat, start: int, end: int, totals: seq<real>, sums: seq<real>)
    requires Increasing(s) && SameWidth(s, width) && 1 <= i < |s| && TotalsAre(totals, s[..i], width, start, end)
    requires |sums| == width && forall k | 0 <= k < width :: sums[k] == totals[k] + Share(s[i - 1], s[i], k, start, end)
    ensures TotalsAre(sums, s[..i + 1], width, start, end)
  {
    assert s[..i + 1][..i] == s[..i];
  }

  /** An interval without overlap adds nothing. */
  lemma TotalsSkip(s: seq<Sample>, width: nat, i: nat, start: int, end: int, totals: seq<real>)
    requires Increasing(s) && SameWidth(s, width) && 1 <= i < |s| && TotalsAre(totals, s[..i], width, start, end)
    requires Overlap(s[i - 1].time, s[i].time, start, end) == 0
    ensures TotalsAre(totals, s[..i + 1], width, start, end)
  {
    WholeIsOne((s[i].time - s[i - 1].time) as real);
    var f := Fraction(s[i - 1], s[i], start, end);
    assert f == 0.0;
    assert s[..i + 1][..i] == s[..i];
    forall k | 0 <= k < width
      ensures totals[k] == Cropped(s[..i + 1], width, k, start, end)
    {
      TimesZero((s[i].counters[k] - s[i - 1].counters[k]) as real, f);
    }
  }

  lemma CoveredStep(s: seq<Sample>, i: nat, start: int, end: int)
    requires 1 <= i < |s|
    ensures Covered(s[..i + 1], start, end) == Covered(s[..i], start, end) + Overlap(s[i - 1].time, s[i].time, start, end)
  {
    assert s[..i + 1][..i] == s[..i];
  }

  /** measurement_network_summary, for one interface: the totals count when the window is
      covered completely. */
  method CropNetwork(s: seq<Sample>, width: nat, start: int, end: int) returns (totals: seq<real>, covered: int)
    requires s != [] && Increasing(s) && SameWidth(s, width) && start < end
    ensures TotalsAre(totals, s, width, start, end) && covered == Covered(s, start, end)
    ensures covered == end - start <==> s[0].time <= start && end <= s[|s| - 1].time
  {
    totals, covered := seq(width, _ => 0.0), 0;
    FullCoverageMeansBracketed(s, start, end);
    for i := 1 to |s|
      invariant TotalsAre(totals, s[..i], width, start, end) && covered == Covered(s[..i], start, end)
    {
      var a, b := s[i - 1], s[i];
      var overlap := Overlap(a.time, b.time, start, end);
      CoveredStep(s, i, start, end);
      if overlap == 0 {
        TotalsSkip(s, width, i, start, end, totals);
      } else {
        covered := covered + overlap;
        ghost var before := totals;
        totals := AddShares(totals, a, b, overlap);
        TotalsStep(s, width, i, start, end, before, totals);
      }
    }
    assert s[..|s|] == s;
  }

  // ----- the CPU summary

  function SumInts(xs: seq<int>): int {
    if xs == [] then 0 else SumInts(xs[..|xs| - 1]) + xs[|xs| - 1]
  }

  function SumReals(xs: seq<real>): real {
    if xs == [] then 0.0 else SumReals(xs[..|xs| - 1]) + xs[|xs| - 1]
  }

  function Deltas(a: Sample, b: Sample): (ds: seq<int>)
    requires |a.counters| == |b.counters|
    ensures |ds| == |a.counters|
  {
    seq(|a.counters|, k requires 0 <= k < |a.counters| => b.counters[k] - a.counters[k])
  }

  predicate NonNegative(xs: seq<int>) { forall i | 0 <= i < |xs| :: xs[i] >= 0 }

  lemma {:induction false} ZeroSum(xs: seq<int>)
    requires NonNegative(xs)
    ensures SumInts(xs) >= 0
    ensures SumInts(xs) == 0 ==> forall i | 0 <= i < |xs| :: xs[i] == 0
    decreases |xs|
  {
    if xs != [] {
      ZeroSum(xs[..|xs| - 1]);
    }
  }

  /** Covered time of the CPU samples: an interval in which no counter moved tells nothing
      and is left out. */
  function CpuCovered(s: seq<Sample>, width: nat, start: int, end: int): (c: int)
    requires SameWidth(s, width)
  {
    if |s| < 2 then 0
    else
      CpuCovered(s[..|s| - 1], width, start, end)
      + if SumInts(Deltas(s[|s| - 2], s[|s| - 1])) > 0 then Overlap(s[|s| - 2].time, s[|s| - 1].time, start, end) else 0
  }

  /** Interval i is outside the window, or some counter moved in it. */
  predicate MovedIn(s: seq<Sample>, width: nat, start: int, end: int, i: nat)
    requires SameWidth(s, width) && i + 1 < |s|
  {
    Overlap(s[i].time, s[i + 1].time, start, end) > 0 ==> SumInts(Deltas(s[i], s[i + 1])) > 0
  }

  predicate AllMoved(s: seq<Sample>, width: nat, start: int, end: int)
    requires SameWidth(s, width)
  {
    forall i: nat | i < |s| - 1 :: MovedIn(s, width, start, end, i)
  }

  lemma AllMovedSplits(s: seq<Sample>, width: nat, start: int, end: int)
    requires SameWidth(s, width) && |s| >= 2
    ensures AllMoved(s, width, start, end) <==> AllMoved(s[..|s| - 1], width, start, end) && MovedIn(s, width, start, end, |s| - 2)
  {
    var init := s[..|s| - 1];
    forall i: nat | i < |init| - 1
      ensures MovedIn(init, width, start, end, i) <==> MovedIn(s, width, start, end, i)
    {
    }
  }

  lemma {:induction false} CpuCoveredAtMost(s: seq<Sample>, width: nat, start: int, end: int)
    requires SameWidth(s, width)
    ensures CpuCovered(s, width, start, end) <= Covered(s, start, end)
    ensures CpuCovered(s, width, start, end) == Covered(s, start, end) <==> AllMoved(s, width, start, end)
    decreases |s|
  {
    if |s| >= 2 {
      CpuCoveredAtMost(s[..|s| - 1], width, start, end);
      AllMovedSplits(s, width, start, end);
    }
  }

  /** A CPU is covered completely exactly if its samples bracket the window and some counter
      moved in every interval of it. */
  lemma CpuFullyCovered(s: seq<Sample>, width: nat, start: int, end: int)
    requires s != [] && Increasing(s) && SameWidth(s, width) && start < end
    ensures CpuCovered(s, width, start, end) == end - start <==>
              s[0].time <= start && end <= s[|s| - 1].time && AllMoved(s, width, start, end)
  {
    CpuCoveredAtMost(s, width, start, end);
    CoveredIsClamped(s, start, end);
  }

  predicate IntervalOk(a: Sample, b: Sample, start: int, end: int)
    requires |a.counters| == |b.counters|
  {
    Overlap(a.time, b.time, start, end) > 0 ==> NonNegative(Deltas(a, b))
  }

  /** A counter went down in an interval that overlaps the window. */
  predicate Decreases(s: seq<Sample>, width: nat, start: int, end: int)
    requires SameWidth(s, width)
  {
    exists i | 0 <= i < |s| - 1 :: !IntervalOk(s[i], s[i + 1], start, end)
  }

  datatype CpuCrop = CounterDecreased | Cropping(totals: seq<real>, covered: int)

  /** One interval of the CPU loop; `bad` where a counter went down. */
  method CropInterval(totals: seq<real>, a: Sample, b: Sample, start: int, end: int) returns (bad: bool, sums: seq<real>, covered: int)
    requires a.time < b.time && |totals| == |a.counters| == |b.counters|
    ensures bad <==> !IntervalOk(a, b, start, end)
    ensures !bad ==> |sums| == |totals| && forall k | 0 <= k < |totals| :: sums[k] == totals[k] + Share(a, b, k, start, end)
    ensures !bad ==> covered == if SumInts(Deltas(a, b)) > 0 then Overlap(a.time, b.time, start, end) else 0
  {
    var overlap := Overlap(a.time, b.time, start, end);
    bad, sums, covered := false, totals, 0;
    WholeIsOne((b.time - a.time) as real);
    if overlap == 0 {
      return;
    }
    var ds := Deltas(a, b);
    if !NonNegative(ds) {
      return true, totals, 0;
    }
    ZeroSum(ds);
    if SumInts(ds) <= 0 {
      assert forall k | 0 <= k < |totals| :: b.counters[k] - a.counters[k] == ds[k] == 0;
      return;
    }
    covered := overlap;
    sums := AddShares(totals, a, b, overlap);
  }

  lemma CpuCoveredStep(s: seq<Sample>, width: nat, i: nat, start: int, end: int)
    requires SameWidth(s, width) && 1 <= i < |s|
    ensures CpuCovered(s[..i + 1], width, start, end) ==
            CpuCovered(s[..i], width, start, end)
            + if SumInts(Deltas(s[i - 1], s[i])) > 0 then Overlap(s[i - 1].time, s[i].time, start, end) else 0
  {
    assert s[..i + 1][..i] == s[..i];
  }

  /** The loop of measurement_cpu_summary, for one CPU. */
  method CropCpu(s: seq<Sample>, width: nat, start: int, end: int) returns (r: CpuCrop)
    requires s != [] && Increasing(s) && SameWidth(s, width)
    ensures r.CounterDecreased? <==> Decreases(s, width, start, end)
    ensures r.Cropping? ==> TotalsAre(r.totals, s, width, start, end) && r.covered == CpuCovered(s, width, start, end)
  {
    var totals, covered := seq(width, _ => 0.0), 0;
    for i := 1 to |s|
      invariant TotalsAre(totals, s[..i], width, start, end) && covered == CpuCovered(s[..i], width, start, end)
      invariant forall j | 0 <= j < i - 1 :: IntervalOk(s[j], s[j + 1], start, end)
    {
      var bad, sums, more := CropInterval(totals, s[i - 1], s[i], start, end);
      if bad {
        return CounterDecreased;
      }
      TotalsStep(s, width, i, start, end, totals, sums);
      CpuCoveredStep(s, width, i, start, end);
      totals, covered := sums, covered + more;
    }
    assert s[..|s|] == s;
    return Cropping(totals, covered);
  }

  // ----- CPU percentages

  function Shares(a: Sample, b: Sample, start: int, end: int): (xs: seq<real>)
    requires a.time < b.time && |a.counters| == |b.counters|
    ensures |xs| == |a.counters|
  {
    seq(|a.counters|, k requires 0 <= k < |a.counters| => Share(a, b, k, start, end))
  }

  function IntervalWeight(a: Sample, b: Sample, start: int, end: int): real
    requires a.time < b.time && |a.counters| == |b.counters|
  {
    SumReals(Shares(a, b, start, end))
  }

  /** The time-weighted total over all counters, interval by interval. */
  function Weight(s: seq<Sample>, width: nat, start: int, end: int): real
    requires Increasing(s) && SameWidth(s, width)
  {
    if |s| < 2 then 0.0
    else Weight(s[..|s| - 1], width, start, end) + IntervalWeight(s[|s| - 2], s[|s| - 1], start, end)
  }

  lemma FractionSign(a: Sample, b: Sample, start: int, end: int)
    requires a.time < b.time
    ensures Fraction(a, b, start, end) >= 0.0
    ensures Overlap(a.time, b.time, start, end) > 0 <==> Fraction(a, b, start, end) > 0.0
  {
    WholeIsOne((b.time - a.time) as real);
  }

  lemma ProductSign(n: int, f: real)
    requires f >= 0.0 && (f > 0.0 ==> n >= 0)
    ensures n as real * f >= 0.0
    ensures n > 0 && f > 0.0 ==> n as real * f > 0.0
  {
  }

  lemma {:induction false} SomePositive(xs: seq<int>) returns (k: nat)
    requires NonNegative(xs) && SumInts(xs) > 0
    ensures k < |xs| && xs[k] > 0
    decreases |xs|
  {
    if xs[|xs| - 1] > 0 {
      k := |xs| - 1;
    } else {
      k := SomePositive(xs[..|xs| - 1]);
    }
  }

  lemma ShareSign(a: Sample, b: Sample, k: nat, start: int, end: int)
    requires a.time < b.time && k < |a.counters| == |b.counters| && IntervalOk(a, b, start, end)
    ensures Share(a, b, k, start, end) >= 0.0
    ensures Overlap(a.time, b.time, start, end) > 0 && b.counters[k] > a.counters[k] ==> Share(a, b, k, start, end) > 0.0
  {
    FractionSign(a, b, start, end);
    if Overlap(a.time, b.time, start, end) > 0 {
      assert Deltas(a, b)[k] >= 0;
    }
    ProductSign(b.counters[k] - a.counters[k], Fraction(a, b, start, end));
  }

  lemma IntervalWeightSign(a: Sample, b: Sample, start: int, end: int)
    requires a.time < b.time && |a.counters| == |b.counters| && IntervalOk(a, b, start, end)
    ensures IntervalWeight(a, b, start, end) >= 0.0
    ensures Overlap(a.time, b.time, start, end) > 0 && SumInts(Deltas(a, b)) > 0 ==> IntervalWeight(a, b, start, end) > 0.0
  {
    var xs := Shares(a, b, start, end);
    forall k | 0 <= k < |xs|
      ensures xs[k] >= 0.0
    {
      ShareSign(a, b, k, start, end);
    }
    SumNonNegative(xs);
    if Overlap(a.time, b.time, start, end) > 0 && SumInts(Deltas(a, b)) > 0 {
      var k := SomePositive(Deltas(a, b));
      ShareSign(a, b, k, start, end);
      OneOfSum(xs, k);
    }
  }

  lemma PrefixDecreases(s: seq<Sample>, width: nat, start: int, end: int)
    requires |s| >= 2 && SameWidth(s, width) && !Decreases(s, width, start, end)
    ensures !Decreases(s[..|s| - 1], width, start, end) && IntervalOk(s[|s| - 2], s[|s| - 1], start, end)
  {
    var init := s[..|s| - 1];
    forall i | 0 <= i < |init| - 1
      ensures IntervalOk(init[i], init[i + 1], start, end)
    {
      assert IntervalOk(s[i], s[i + 1], start, end);
    }
    assert IntervalOk(s[|s| - 2], s[|s| - 2 + 1], start, end);
  }

  /** Whenever any time counts as covered, the total is positive. */
  lemma {:induction false} CoveredHasWeight(s: seq<Sample>, width: nat, start: int, end: int)
    requires Increasing(s) && SameWidth(s, width) && !Decreases(s, width, start, end)
    ensures Weight(s, width, start, end) >= 0.0
    ensures CpuCovered(s, width, start, end) > 0 ==> Weight(s, width, start, end) > 0.0
    decreases |s|
  {
    if |s| >= 2 {
      PrefixDecreases(s, width, start, end);
      CoveredHasWeight(s[..|s| - 1], width, start, end);
      IntervalWeightSign(s[|s| - 2], s[|s| - 1], start, end);
    }
  }

  function CroppedAll(s: seq<Sample>, width: nat, start: int, end: int): (xs: seq<real>)
    requires Increasing(s) && SameWidth(s, width)
    ensures |xs| == width
  {
    seq(width, k requires 0 <= k < width => Cropped(s, width, k, start, end))
  }

  lemma CroppedAllStep(s: seq<Sample>, width: nat, start: int, end: int, sums: seq<real>, before: seq<real>, xs: seq<real>)
    requires |s| >= 2 && Increasing(s) && SameWidth(s, width)
    requires sums == CroppedAll(s, width, start, end) && before == CroppedAll(s[..|s| - 1], width, start, end)
    requires xs == Shares(s[|s| - 2], s[|s| - 1], start, end)
    ensures |sums| == |before| == |xs| && forall k | 0 <= k < |xs| :: sums[k] == before[k] + xs[k]
  {
  }

  lemma SumStep(s: seq<Sample>, width: nat, start: int, end: int)
    requires |s| >= 2 && Increasing(s) && SameWidth(s, width)
    ensures SumReals(CroppedAll(s, width, start, end)) ==
            SumReals(CroppedAll(s[..|s| - 1], width, start, end)) + IntervalWeight(s[|s| - 2], s[|s| - 1], start, end)
  {
    var sums, before := CroppedAll(s, width, start, end), CroppedAll(s[..|s| - 1], width, start, end);
    var xs := Shares(s[|s| - 2], s[|s| - 1], start, end);
    CroppedAllStep(s, width, start, end, sums, before, xs);
    SumsAdd(sums, before, xs);
  }

  lemma SumOfOne(s: seq<Sample>, width: nat, start: int, end: int)
    requires |s| == 1 && SameWidth(s, width)
    ensures SumReals(CroppedAll(s, width, start, end)) == 0.0
  {
    ZeroReals(CroppedAll(s, width, start, end));
  }

  /** All the counters' totals together are that weight. */
  lemma {:induction false} TotalsSumToWeight(s: seq<Sample>, width: nat, start: int, end: int)
    requires s != [] && Increasing(s) && SameWidth(s, width)
    ensures SumReals(CroppedAll(s, width, start, end)) == Weight(s, width, start, end)
    decreases |s|
  {
    if |s| == 1 {
      SumOfOne(s, width, start, end);
    } else {
      TotalsSumToWeight(s[..|s| - 1], width, start, end);
      SumStep(s, width, start, end);
    }
  }

  lemma {:induction false} ZeroReals(xs: seq<real>)
    requires forall i | 0 <= i < |xs| :: xs[i] == 0.0
    ensures SumReals(xs) == 0.0
    decreases |xs|
  {
    if xs != [] {
      ZeroReals(xs[..|xs| - 1]);
    }
  }

  lemma {:induction false} SumsAdd(sums: seq<real>, before: seq<real>, xs: seq<real>)
    requires |sums| == |before| == |xs| && forall k | 0 <= k < |xs| :: sums[k] == before[k] + xs[k]
    ensures SumReals(sums) == SumReals(before) + SumReals(xs)
    decreases |xs|
  {
    if xs != [] {
      var n := |xs| - 1;
      SumsAdd(sums[..n], before[..n], xs[..n]);
    }
  }

  lemma {:induction false} CroppedNonNegative(s: seq<Sample>, width: nat, k: nat, start: int, end: int)
    requires Increasing(s) && SameWidth(s, width) && k < width && !Decreases(s, width, start, end)
    ensures Cropped(s, width, k, start, end) >= 0.0
    decreases |s|
  {
    if |s| >= 2 {
      var a, b := s[|s| - 2], s[|s| - 1];
      PrefixDecreases(s, width, start, end);
      CroppedNonNegative(s[..|s| - 1], width, k, start, end);
      ShareSign(a, b, k, start, end);
    }
  }

  /** The percentage of every counter. */
  function Percentages(totals: seq<real>, total: real): (ps: seq<real>)
    requires total != 0.0
    ensures |ps| == |totals|
  {
    seq(|totals|, k requires 0 <= k < |totals| => totals[k] * 100.0 / total)
  }

  lemma {:induction false} PercentagesSum(totals: seq<real>, total: real)
    requires total != 0.0
    ensures SumReals(Percentages(totals, total)) == SumReals(totals) * 100.0 / total
    decreases |totals|
  {
    if totals == [] {
      WholeIsOne(total);
    } else {
      var n := |totals| - 1;
      PercentagesSum(totals[..n], total);
      assert Percentages(totals, total)[..n] == Percentages(totals[..n], total);
      assert SumReals(totals) * 100.0 / total == SumReals(totals[..n]) * 100.0 / total + totals[n] * 100.0 / total;
    }
  }

  lemma {:induction false} PartOfSum(xs: seq<real>, i: nat, j: nat)
    requires i < j < |xs| && forall k | 0 <= k < |xs| :: xs[k] >= 0.0
    ensures 0.0 <= xs[i] + xs[j] <= SumReals(xs)
    decreases |xs|
  {
    var init := xs[..|xs| - 1];
    SumNonNegative(init);
    if j < |init| {
      PartOfSum(init, i, j);
    } else {
      OneOfSum(init, i);
    }
  }

  lemma {:induction false} OneOfSum(xs: seq<real>, i: nat)
    requires i < |xs| && forall k | 0 <= k < |xs| :: xs[k] >= 0.0
    ensures xs[i] <= SumReals(xs)
    decreases |xs|
  {
    var init := xs[..|xs| - 1];
    SumNonNegative(init);
    if i < |init| {
      OneOfSum(init, i);
    }
  }

  lemma {:induction false} SumNonNegative(xs: seq<real>)
    requires forall k | 0 <= k < |xs| :: xs[k] >= 0.0
    ensures SumReals(xs) >= 0.0
    decreases |xs|
  {
    if xs != [] {
      SumNonNegative(xs[..|xs| - 1]);
    }
  }

  lemma BusyBounds(total: real, quiet: real)
    requires total > 0.0 && 0.0 <= quiet <= total
    ensures 0.0 <= (total - quiet) * 100.0 / total <= 100.0
  {
    var x := (total - quiet) * 100.0;
    assert 0.0 <= x <= 100.0 * total;
    assert x / total * total == x;
  }

  /** The whole is a hundred percent of itself. */
  lemma WholeShare(total: real)
    requires total > 0.0
    ensures total * 100.0 / total == 100.0
  {
    var q := total * 100.0 / total;
    assert q * total == total * 100.0;
    assert (q - 100.0) * total == 0.0;
  }

  const IDLE := 3
  const IOWAIT := 4

  datatype CpuReport = InvalidSamples | PartialCoverage(covered: int) | CpuReport(percentages: seq<real>, busy: real)

  /** How far each piecewise linear counter moves over the window. */
  function Moves(s: seq<Sample>, width: nat, start: int, end: int): (ms: seq<real>)
    requires s != [] && Increasing(s) && SameWidth(s, width)
    ensures |ms| == width
  {
    seq(width, k requires 0 <= k < width => Level(s, width, k, end) - Level(s, width, k, start))
  }

  lemma TotalsAreMoves(totals: seq<real>, s: seq<Sample>, width: nat, start: int, end: int)
    requires s != [] && Increasing(s) && SameWidth(s, width) && start <= end && TotalsAre(totals, s, width, start, end)
    ensures totals == Moves(s, width, start, end)
  {
    forall k | 0 <= k < width
      ensures totals[k] == Moves(s, width, start, end)[k]
    {
      CroppedIsDifference(s, width, k, start, end);
    }
  }

  /** measurement_cpu_summary, for one CPU: with full coverage the percentages of the
      counters sum to 100 and the busy percentage is between 0 and 100. */
  method SummarizeCpu(s: seq<Sample>, width: nat, start: int, end: int) returns (r: CpuReport)
    requires s != [] && Increasing(s) && SameWidth(s, width) && width > IOWAIT && start < end
    ensures r.InvalidSamples? <==> Decreases(s, width, start, end)
    ensures !r.InvalidSamples? ==> (r.CpuReport? <==> CpuCovered(s, width, start, end) == end - start)
    ensures r.CpuReport? ==> |r.percentages| == width && SumReals(r.percentages) == 100.0 && 0.0 <= r.busy <= 100.0
    ensures r.PartialCoverage? ==> r.covered == CpuCovered(s, width, start, end)
    ensures r.CpuReport? ==>
              var moves := Moves(s, width, start, end);
              var total := SumReals(moves);
              && total > 0.0 && (forall k | 0 <= k < width :: r.percentages[k] == moves[k] * 100.0 / total)
              && r.busy == (total - moves[IDLE] - moves[IOWAIT]) * 100.0 / total
  {
    var crop := CropCpu(s, width, start, end);
    if crop.CounterDecreased? {
      return InvalidSamples;
    }
    if crop.covered != end - start {
      return PartialCoverage(crop.covered);
    }
    var totals := crop.totals;
    FullReport(totals, s, width, start, end);
    TotalsAreMoves(totals, s, width, start, end);
    var total := SumReals(totals);
    r := CpuReport(Percentages(totals, total), (total - totals[IDLE] - totals[IOWAIT]) * 100.0 / total);
  }

  lemma FullReport(totals: seq<real>, s: seq<Sample>, width: nat, start: int, end: int)
    requires s != [] && Increasing(s) && SameWidth(s, width) && width > IOWAIT && start < end
    requires !Decreases(s, width, start, end) && TotalsAre(totals, s, width, start, end) && CpuCovered(s, width, start, end) == end - start
    ensures SumReals(totals) > 0.0 && SumReals(Percentages(totals, SumReals(totals))) == 100.0
    ensures 0.0 <= (SumReals(totals) - totals[IDLE] - totals[IOWAIT]) * 100.0 / SumReals(totals) <= 100.0
  {
    assert totals == CroppedAll(s, width, start, end);
    TotalsSumToWeight(s, width, start, end);
    CoveredHasWeight(s, width, start, end);
    var total := SumReals(totals);
    PercentagesSum(totals, total);
    WholeShare(total);
    forall k | 0 <= k < width
      ensures totals[k] >= 0.0
    {
      CroppedNonNegative(s, width, k, start, end);
    }
    PartOfSum(totals, IDLE, IOWAIT);
    BusyBounds(total, totals[IDLE] + totals[IOWAIT]);
    assert total - totals[IDLE] - totals[IOWAIT] == total - (totals[IDLE] + totals[IOWAIT]);
  }
}
