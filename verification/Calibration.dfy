/** The PHC-minus-MONOTONIC calibration: merging captures into points and interpolating
    between them (analysis/join_results.py). */
module Calibration {
  import opened Wrappers
  import opened Sorting

  function Abs(x: int): int { if x < 0 then -x else x }

  // ----- rounding

  /** The nearest integer to a ratio, exact halves away from zero. */
  function RoundRatio(numerator: int, denominator: int): (r: int)
    requires denominator > 0
  {
    if numerator >= 0 then (2 * numerator + denominator) / (2 * denominator)
    else -((2 * -numerator + denominator) / (2 * denominator))
  }

  lemma RoundRatioNearest(n: int, d: int)
    requires d > 0
    ensures -d <= 2 * (RoundRatio(n, d) * d - n) <= d
    ensures 2 * (RoundRatio(n, d) * d - n) == d ==> n >= 0
    ensures 2 * (RoundRatio(n, d) * d - n) == -d ==> n < 0
  {
    var m := Abs(n);
    var q := (2 * m + d) / (2 * d);
    assert 2 * m + d == q * (2 * d) + (2 * m + d) % (2 * d);
    assert q * (2 * d) == 2 * (q * d);
    assert RoundRatio(n, d) == (if n >= 0 then q else -q);
    assert n < 0 ==> RoundRatio(n, d) * d == -(q * d);
  }

  /** Those bounds determine the result. */
  lemma RoundRatioUnique(n: int, d: int, r: int)
    requires d > 0 && -d <= 2 * (r * d - n) <= d
    requires 2 * (r * d - n) == d ==> n >= 0
    requires 2 * (r * d - n) == -d ==> n < 0
    ensures RoundRatio(n, d) == r
  {
    RoundRatioNearest(n, d);
    var s := RoundRatio(n, d);
    Multiples(r, s, d);
  }

  lemma MulAtLeast(k: int, d: int)
    requires k >= 1 && d > 0
    ensures k * d >= d
  {
  }

  lemma Distribute(r: int, k: int, d: int)
    ensures (r + k) * d == r * d + k * d
  {
  }

  lemma Multiples(r: int, s: int, d: int)
    requires d > 0
    ensures r < s ==> r * d + d <= s * d
    ensures s < r ==> s * d + d <= r * d
  {
    if r < s {
      MulAtLeast(s - r, d);
      Distribute(r, s - r, d);
    } else if s < r {
      MulAtLeast(r - s, d);
      Distribute(s, r - s, d);
    }
  }

  lemma RoundRatioMonotone(m: int, n: int, d: int)
    requires d > 0 && m <= n
    ensures RoundRatio(m, d) <= RoundRatio(n, d)
  {
    RoundRatioNearest(m, d);
    RoundRatioNearest(n, d);
    Multiples(RoundRatio(n, d), RoundRatio(m, d), d);
  }

  lemma RoundRatioExact(k: int, d: int)
    requires d > 0
    ensures RoundRatio(k * d, d) == k
  {
    RoundRatioUnique(k * d, d, k);
  }

  // ----- lookup

  datatype Point = Point(time: int, offset: int)

  ghost predicate Increasing(ps: seq<Point>) {
    forall i, j | 0 <= i < j < |ps| :: ps[i].time < ps[j].time
  }

  /** bisect_right over the times. */
  function BisectRight(ps: seq<Point>, t: int): (r: nat)
    ensures r <= |ps|
    ensures r > 0 ==> ps[r - 1].time <= t
  {
    if ps == [] then 0 else if ps[|ps| - 1].time <= t then |ps| else BisectRight(ps[..|ps| - 1], t)
  }

  lemma {:induction false} BisectSplits(ps: seq<Point>, t: int)
    requires Increasing(ps)
    ensures forall i | 0 <= i < |ps| :: ps[i].time <= t <==> i < BisectRight(ps, t)
    decreases |ps|
  {
    if ps != [] && ps[|ps| - 1].time > t {
      BisectSplits(ps[..|ps| - 1], t);
    }
  }

  datatype Position = Before | Inside | Exact | After

  datatype Lookup = Lookup(offset: Option<int>, position: Position, outOfRange: bool, distance: int)

  /** The numerator of the interpolant between two points, over their distance. */
  function Interpolant(a: Point, b: Point, t: int): int {
    a.offset * (b.time - a.time) + (b.offset - a.offset) * (t - a.time)
  }

  function LookupAt(ps: seq<Point>, t: int, clamp: bool): (r: Lookup)
    requires ps != [] && Increasing(ps)
  {
    var right := BisectRight(ps, t);
    if right == 0 then Lookup(if clamp then Some(ps[0].offset) else None, Before, true, ps[0].time - t)
    else if right == |ps| then
      var last := ps[|ps| - 1];
      if t == last.time then Lookup(Some(last.offset), Exact, false, 0)
      else Lookup(if clamp then Some(last.offset) else None, After, true, t - last.time)
    else
      var left, following := ps[right - 1], ps[right];
      if t == left.time then Lookup(Some(left.offset), Exact, false, 0)
      else Lookup(Some(RoundRatio(Interpolant(left, following, t), following.time - left.time)), Inside, false, 0)
  }

  /** What every lookup answers, with no mention of the search: the offset of a point at the
      point, the rounded interpolant strictly between two neighbours, and outside nothing
      (or the nearest end, if clamping is allowed). */
  lemma LookupMeaning(ps: seq<Point>, t: int, clamp: bool)
    requires ps != [] && Increasing(ps)
    ensures forall i | 0 <= i < |ps| && t == ps[i].time :: LookupAt(ps, t, clamp) == Lookup(Some(ps[i].offset), Exact, false, 0)
    ensures forall i | 0 <= i < |ps| - 1 && ps[i].time < t < ps[i + 1].time ::
              LookupAt(ps, t, clamp) == Lookup(Some(RoundRatio(Interpolant(ps[i], ps[i + 1], t), ps[i + 1].time - ps[i].time)), Inside, false, 0)
    ensures t < ps[0].time ==> LookupAt(ps, t, clamp) == Lookup(if clamp then Some(ps[0].offset) else None, Before, true, ps[0].time - t)
    ensures t > ps[|ps| - 1].time ==>
              LookupAt(ps, t, clamp) == Lookup(if clamp then Some(ps[|ps| - 1].offset) else None, After, true, t - ps[|ps| - 1].time)
  {
    BisectSplits(ps, t);
    forall i | 0 <= i < |ps| && t == ps[i].time
      ensures LookupAt(ps, t, clamp) == Lookup(Some(ps[i].offset), Exact, false, 0)
    {
      assert BisectRight(ps, t) == i + 1;
    }
    forall i | 0 <= i < |ps| - 1 && ps[i].time < t < ps[i + 1].time
      ensures LookupAt(ps, t, clamp) == Lookup(Some(RoundRatio(Interpolant(ps[i], ps[i + 1], t), ps[i + 1].time - ps[i].time)), Inside, false, 0)
    {
      assert BisectRight(ps, t) == i + 1;
    }
  }

  /** The interpolant is the point on the straight line, by weights of the two ends. */
  lemma InterpolantIsLine(a: Point, b: Point, t: int)
    ensures Interpolant(a, b, t) == a.offset * (b.time - t) + b.offset * (t - a.time)
  {
    var x, y := b.time - t, t - a.time;
    assert a.offset * (x + y) == a.offset * x + a.offset * y;
    assert (b.offset - a.offset) * y == b.offset * y - a.offset * y;
  }

  /** The interpolant runs from one offset to the other. */
  lemma InterpolantBetween(a: Point, b: Point, t: int)
    requires a.time <= t <= b.time
    ensures var span := b.time - a.time;
            a.offset <= b.offset ==> a.offset * span <= Interpolant(a, b, t) <= b.offset * span
    ensures var span := b.time - a.time;
            a.offset >= b.offset ==> b.offset * span <= Interpolant(a, b, t) <= a.offset * span
  {
    var span, step, rise := b.time - a.time, t - a.time, b.offset - a.offset;
    assert rise * span == b.offset * span - a.offset * span;
    if rise >= 0 {
      assert 0 <= rise * step && rise * (span - step) >= 0;
    } else {
      assert (-rise) * step >= 0 && (-rise) * (span - step) >= 0;
    }
    assert rise * (span - step) == rise * span - rise * step;
  }

  /** A lookup between two neighbours stays between their offsets and within half a
      nanosecond of the straight line. */
  lemma LookupInterpolates(ps: seq<Point>, i: nat, t: int, clamp: bool)
    requires Increasing(ps) && i < |ps| - 1 && ps[i].time <= t <= ps[i + 1].time
    ensures LookupAt(ps, t, clamp).offset.Some? && !LookupAt(ps, t, clamp).outOfRange
    ensures var a, b, o := ps[i].offset, ps[i + 1].offset, LookupAt(ps, t, clamp).offset.value;
            (a <= b ==> a <= o <= b) && (b <= a ==> b <= o <= a)
    ensures var a, b := ps[i], ps[i + 1];
            2 * Abs(LookupAt(ps, t, clamp).offset.value * (b.time - a.time) - (a.offset * (b.time - t) + b.offset * (t - a.time))) <= b.time - a.time
  {
    var a, b := ps[i], ps[i + 1];
    var span := b.time - a.time;
    LookupIsRounded(ps, i, t, clamp);
    InterpolantIsLine(a, b, t);
    InterpolantBetween(a, b, t);
    RoundRatioNearest(Interpolant(a, b, t), span);
    RoundRatioExact(a.offset, span);
    RoundRatioExact(b.offset, span);
    if a.offset <= b.offset {
      RoundRatioMonotone(a.offset * span, Interpolant(a, b, t), span);
      RoundRatioMonotone(Interpolant(a, b, t), b.offset * span, span);
    }
    if b.offset <= a.offset {
      RoundRatioMonotone(b.offset * span, Interpolant(a, b, t), span);
      RoundRatioMonotone(Interpolant(a, b, t), a.offset * span, span);
    }
  }

  lemma InterpolantAtEnds(a: Point, b: Point)
    ensures Interpolant(a, b, a.time) == a.offset * (b.time - a.time)
    ensures Interpolant(a, b, b.time) == b.offset * (b.time - a.time)
  {
    var span := b.time - a.time;
    assert (b.offset - a.offset) * 0 == 0;
    assert (b.offset - a.offset) * span == b.offset * span - a.offset * span;
  }

  /** At the two ends of a segment the exact offset is the rounded interpolant, too. */
  lemma LookupIsRounded(ps: seq<Point>, i: nat, t: int, clamp: bool)
    requires Increasing(ps) && i < |ps| - 1 && ps[i].time <= t <= ps[i + 1].time
    ensures var r := LookupAt(ps, t, clamp);
            r.offset == Some(RoundRatio(Interpolant(ps[i], ps[i + 1], t), ps[i + 1].time - ps[i].time)) && !r.outOfRange
  {
    LookupMeaning(ps, t, clamp);
    RoundedAtEnds(ps[i], ps[i + 1]);
  }

  lemma RoundedAtEnds(a: Point, b: Point)
    requires a.time < b.time
    ensures RoundRatio(Interpolant(a, b, a.time), b.time - a.time) == a.offset
    ensures RoundRatio(Interpolant(a, b, b.time), b.time - a.time) == b.offset
  {
    InterpolantAtEnds(a, b);
    RoundRatioExact(a.offset, b.time - a.time);
    RoundRatioExact(b.offset, b.time - a.time);
  }

  lemma Scaled(rise: int, x: int, y: int)
    requires x <= y
    ensures rise >= 0 ==> rise * x <= rise * y
    ensures rise <= 0 ==> rise * x >= rise * y
  {
    var d := y - x;
    assert rise * y == rise * x + rise * d;
    assert rise >= 0 ==> rise * d >= 0;
    assert rise <= 0 ==> (-rise) * d >= 0 && rise * d == -((-rise) * d);
  }

  /** Within a segment the offset moves one way only. */
  lemma LookupMonotone(ps: seq<Point>, i: nat, t: int, u: int, clamp: bool)
    requires Increasing(ps) && i < |ps| - 1 && ps[i].time <= t <= u <= ps[i + 1].time
    ensures LookupAt(ps, t, clamp).offset.Some? && LookupAt(ps, u, clamp).offset.Some?
    ensures ps[i].offset <= ps[i + 1].offset ==> LookupAt(ps, t, clamp).offset.value <= LookupAt(ps, u, clamp).offset.value
    ensures ps[i].offset >= ps[i + 1].offset ==> LookupAt(ps, t, clamp).offset.value >= LookupAt(ps, u, clamp).offset.value
  {
    var a, b := ps[i], ps[i + 1];
    var span := b.time - a.time;
    LookupIsRounded(ps, i, t, clamp);
    LookupIsRounded(ps, i, u, clamp);
    Scaled(b.offset - a.offset, t - a.time, u - a.time);
    if a.offset <= b.offset {
      RoundRatioMonotone(Interpolant(a, b, t), Interpolant(a, b, u), span);
    }
    if a.offset >= b.offset {
      RoundRatioMonotone(Interpolant(a, b, u), Interpolant(a, b, t), span);
    }
  }

  // ----- merging captures

  ghost predicate SortedByTime(ps: seq<Point>) {
    forall i, j | 0 <= i < j < |ps| :: ps[i].time <= ps[j].time
  }

  const TIME: Point -> int := (p: Point) => p.time

  /** No two selected samples disagree about one instant. */
  ghost predicate Consistent(ps: multiset<Point>) {
    forall p, q | p in ps && q in ps && p.time == q.time :: p == q
  }

  // ----- one capture file

  const INT64_MAX := 0x7FFF_FFFF_FFFF_FFFF

  /** A row of a calibration capture: the PHC read between two reads of the monotonic clock. */
  datatype Sample = Sample(iteration: int, number: int, before: int, phc: int, after: int, span: int, offset: int, selected: int)

  predicate Int64(x: int) { -INT64_MAX - 1 <= x <= INT64_MAX }

  function PointOf(s: Sample): Point {
    var midpoint := s.before + s.span / 2;
    Point(midpoint, s.phc - midpoint)
  }

  /** A row that is not refused. */
  predicate SampleOk(s: Sample) {
    && 0 <= s.iteration <= 0xFFFF_FFFF && 0 <= s.number <= 0xFFFF_FFFF
    && Int64(s.before) && Int64(s.phc) && Int64(s.after) && Int64(s.span) && Int64(s.offset)
    && 0 <= s.before <= s.after && s.span == s.after - s.before
    && s.offset == PointOf(s).offset && (s.selected == 0 || s.selected == 1)
  }

  /** Whatever is used of a row fits 64 bits, and so do the readings it comes from. */
  lemma SampleFits(s: Sample)
    requires SampleOk(s)
    ensures Int64(s.before) && Int64(s.phc) && Int64(s.after) && Int64(s.span) && Int64(s.offset)
    ensures Int64(PointOf(s).time) && Int64(PointOf(s).offset)
  {
  }

  function Selected(rows: seq<Sample>): (ps: seq<Point>) {
    if rows == [] then []
    else
      var last := rows[|rows| - 1];
      Selected(rows[..|rows| - 1]) + if last.selected == 1 then [PointOf(last)] else []
  }

  predicate FileOk(rows: seq<Sample>) {
    (forall i | 0 <= i < |rows| :: SampleOk(rows[i])) && Selected(rows) != []
  }

  /** load_calibration_file: None where it raises. */
  method LoadFile(rows: seq<Sample>) returns (r: Option<seq<Point>>)
    ensures r.Some? <==> FileOk(rows)
    ensures r.Some? ==> r.value == Selected(rows)
  {
    var selected: seq<Point> := [];
    for i := 0 to |rows|
      invariant selected == Selected(rows[..i])
      invariant forall j | 0 <= j < i :: SampleOk(rows[j])
    {
      assert rows[..i + 1][..i] == rows[..i];
      if !SampleOk(rows[i]) {
        return None;
      }
      if rows[i].selected != 0 {
        selected := selected + [PointOf(rows[i])];
      }
    }
    assert rows[..|rows|] == rows;
    return if selected == [] then None else Some(selected);
  }

  /** The midpoint of a row lies between its two reads of the clock. */
  lemma MidpointBetween(s: Sample)
    requires SampleOk(s)
    ensures s.before <= PointOf(s).time <= s.after
    ensures 0 <= (s.after - PointOf(s).time) - (PointOf(s).time - s.before) <= 1
    ensures PointOf(s).time + PointOf(s).offset == s.phc && PointOf(s).offset == s.offset
  {
  }

  /** The selected points are exactly those of the rows marked for it. */
  lemma {:induction false} SelectedMeans(rows: seq<Sample>, p: Point)
    ensures p in Selected(rows) <==> exists i :: 0 <= i < |rows| && rows[i].selected == 1 && PointOf(rows[i]) == p
    decreases |rows|
  {
    if rows != [] {
      var init, last := rows[..|rows| - 1], rows[|rows| - 1];
      SelectedMeans(init, p);
      if p in Selected(init) {
        var i :| 0 <= i < |init| && init[i].selected == 1 && PointOf(init[i]) == p;
        assert rows[i] == init[i];
      }
      if p in Selected(rows) && p !in Selected(init) {
        assert last.selected == 1 && PointOf(last) == p;
      }
      forall i | 0 <= i < |rows| && rows[i].selected == 1 && PointOf(rows[i]) == p
        ensures p in Selected(rows)
      {
        assert i < |init| ==> init[i] == rows[i];
      }
    }
  }

  function SelectedOf(files: seq<seq<Sample>>): (r: seq<seq<Point>>)
    ensures |r| == |files|
  {
    seq(|files|, i requires 0 <= i < |files| => Selected(files[i]))
  }

  function AllSelected(files: seq<seq<Sample>>): seq<Point> {
    Flatten(SelectedOf(files))
  }

  lemma SelectedGrows(files: seq<seq<Sample>>, i: nat)
    requires i < |files|
    ensures AllSelected(files[..i + 1]) == AllSelected(files[..i]) + Selected(files[i])
  {
    var all := SelectedOf(files[..i + 1]);
    assert all[..i] == SelectedOf(files[..i]) && all[i] == Selected(files[i]);
  }

  /** load_calibration: None where it raises. */
  method LoadCalibration(files: seq<seq<Sample>>) returns (r: Option<seq<Point>>, duplicates: nat)
    ensures Loaded(files, r)
    ensures r.Some? ==> r.value != [] && |r.value| + duplicates == |AllSelected(files)|
  {
    duplicates := 0;
    if files == [] {
      return None, 0;
    }
    var all: seq<Point> := [];
    for i := 0 to |files|
      invariant all == AllSelected(files[..i]) && (i > 0 ==> all != [])
      invariant forall j | 0 <= j < i :: FileOk(files[j])
    {
      var selected := LoadFile(files[i]);
      if selected.None? {
        return None, 0;
      }
      SelectedGrows(files, i);
      all := all + selected.value;
    }
    assert files[..|files|] == files;
    var sorted := Sort(all, TIME);
    SortSorted(all, TIME);
    r, duplicates := Unique(sorted);
    if r.Some? {
      forall p
        ensures p in r.value <==> p in multiset(all)
      {
        assert p in r.value <==> p in multiset(sorted);
      }
      assert all[0] in multiset(all);
    }
  }

  /** The merging loop: repeated samples are dropped, conflicting ones refused. */
  method Unique(sorted: seq<Point>) returns (r: Option<seq<Point>>, duplicates: nat)
    requires SortedByTime(sorted)
    ensures r.Some? <==> Consistent(multiset(sorted))
    ensures r.Some? ==> Increasing(r.value) && (forall p :: p in r.value <==> p in sorted)
    ensures r.Some? ==> |r.value| + duplicates == |sorted|
  {
    var unique: seq<Point> := [];
    duplicates := 0;
    for i := 0 to |sorted|
      invariant Increasing(unique) && |unique| + duplicates == i
      invariant (unique == []) == (i == 0)
      invariant unique != [] ==> unique[|unique| - 1] == sorted[i - 1]
      invariant forall p :: p in unique <==> p in sorted[..i]
      invariant forall j, k | 0 <= j < i && 0 <= k < i && sorted[j].time == sorted[k].time :: sorted[j] == sorted[k]
    {
      var p := sorted[i];
      assert sorted[..i + 1] == sorted[..i] + [p];
      if unique != [] && p.time == unique[|unique| - 1].time {
        duplicates := duplicates + 1;
        if p.offset != unique[|unique| - 1].offset {
          assert p in multiset(sorted) && sorted[i - 1] in multiset(sorted);
          return None, duplicates;
        }
        assert p == sorted[i - 1];
        forall j | 0 <= j < i && sorted[j].time == p.time
          ensures sorted[j] == p
        {
          assert sorted[j].time == sorted[i - 1].time;
        }
      } else {
        forall j | 0 <= j < |unique|
          ensures unique[j].time < p.time
        {
          assert unique[j] in sorted[..i];
        }
        unique := unique + [p];
      }
    }
    assert sorted[..|sorted|] == sorted;
    return Some(unique), duplicates;
  }

  /** A strictly increasing list is determined by its elements. */
  lemma {:induction false} IncreasingUnique(a: seq<Point>, b: seq<Point>)
    requires Increasing(a) && Increasing(b) && forall p :: p in a <==> p in b
    ensures a == b
    decreases |a|
  {
    assert b != [] ==> b[0] in a;
    if a != [] {
      assert a[|a| - 1] in b && b != [] && b[|b| - 1] in a;
      var x, y := a[|a| - 1], b[|b| - 1];
      assert x.time <= y.time && y.time <= x.time;
      assert x == y by {
        var k :| 0 <= k < |b| && b[k] == x;
        assert k == |b| - 1;
      }
      var a', b' := a[..|a| - 1], b[..|b| - 1];
      forall p
        ensures p in a' <==> p in b'
      {
        Drop(a, p);
        Drop(b, p);
      }
      IncreasingUnique(a', b');
      assert a == a' + [x] && b == b' + [y];
    }
  }

  lemma Drop(a: seq<Point>, p: Point)
    requires Increasing(a) && a != []
    ensures p in a[..|a| - 1] <==> p in a && p != a[|a| - 1]
  {
    assert a == a[..|a| - 1] + [a[|a| - 1]];
  }

  lemma {:induction false} SelectedPermuted(a: seq<seq<Sample>>, b: seq<seq<Sample>>)
    requires multiset(a) == multiset(b)
    ensures multiset(SelectedOf(a)) == multiset(SelectedOf(b))
    decreases |a|
  {
    if a == [] {
      assert |multiset(b)| == 0;
    } else {
      var i := |a| - 1;
      assert a[i] in multiset(b);
      var j :| 0 <= j < |b| && b[j] == a[i];
      SameRest(a, b, i, j);
      SelectedPermuted(Without(a, i), Without(b, j));
      SelectedWithout(a, i);
      SelectedWithout(b, j);
    }
  }

  lemma SelectedWithout(files: seq<seq<Sample>>, i: nat)
    requires i < |files|
    ensures multiset(SelectedOf(files)) == multiset(SelectedOf(Without(files, i))) + multiset{Selected(files[i])}
  {
    assert SelectedOf(Without(files, i)) == Without(SelectedOf(files), i);
    MultisetWithout(SelectedOf(files), i);
  }

  /** The order of the input files does not matter: any result `r` of loading `a` and any
      result `s` of loading `b`, as LoadCalibration specifies them, coincide. */
  lemma FileOrderIrrelevant(a: seq<seq<Sample>>, b: seq<seq<Sample>>, r: Option<seq<Point>>, s: Option<seq<Point>>)
    requires multiset(a) == multiset(b)
    requires Loaded(a, r) && Loaded(b, s)
    ensures r == s
  {
    SelectedPermuted(a, b);
    FlattenPermuted(SelectedOf(a), SelectedOf(b));
    if r.Some? {
      FilesPermuted(a, b);
    } else if s.Some? {
      FilesPermuted(b, a);
    }
    if r.Some? {
      IncreasingUnique(r.value, s.value);
    }
  }

  lemma FilesPermuted(a: seq<seq<Sample>>, b: seq<seq<Sample>>)
    requires multiset(a) == multiset(b) && a != [] && forall i | 0 <= i < |a| :: FileOk(a[i])
    ensures b != [] && forall i | 0 <= i < |b| :: FileOk(b[i])
  {
    assert a[0] in multiset(b);
    forall i | 0 <= i < |b|
      ensures FileOk(b[i])
    {
      assert b[i] in multiset(a);
    }
  }

  /** Loading succeeds exactly when there is a file, every file is sound, and no two samples
      contradict each other; the points are the selected samples, in strict order of time. */
  ghost predicate Loaded(files: seq<seq<Sample>>, r: Option<seq<Point>>) {
    && (r.Some? <==> files != [] && (forall i | 0 <= i < |files| :: FileOk(files[i])) && Consistent(multiset(AllSelected(files))))
    && (r.Some? ==> Increasing(r.value) && (forall p :: p in r.value <==> p in multiset(AllSelected(files))))
  }
}
