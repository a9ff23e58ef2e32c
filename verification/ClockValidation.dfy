/** The decision whether the clock of a capture is good enough (analysis/clock_validation.py). */
module ClockValidation {
  import opened Wrappers
  import opened Calibration
  import opened JoinRow

  const MAX_GAP := 500_000_000

  datatype Report = Report(
    packets: nat, received: nat, unreceived: nat, missingTotal: nat, negativeD1: nat, negativeTotal: nat, invalidDecomposition: nat,
    first: Option<int>, last: Option<int>)

  const EMPTY := Report(0, 0, 0, 0, 0, 0, 0, None, None)

  function MinOf(a: Option<int>, b: Option<int>): Option<int> {
    if a.None? then b else if b.None? then a else Some(if a.value <= b.value then a.value else b.value)
  }

  function MaxOf(a: Option<int>, b: Option<int>): Option<int> {
    if a.None? then b else if b.None? then a else Some(if a.value >= b.value then a.value else b.value)
  }

  predicate StatusAllowed(r: Row) {
    r.status == Complete || (r.userRaw.None? && r.status == Incomplete)
  }

  /** One turn of the loop over the joined rows. */
  function Count(p: Report, r: Row): Report {
    var got := r.userRaw.Some?;
    Report(
      p.packets + 1, p.received + One(got), p.unreceived + One(!got),
      p.missingTotal + One(got && r.delays.total.None?),
      p.negativeD1 + One(IsNegative(r.delays.d1)), p.negativeTotal + One(IsNegative(r.delays.total)),
      p.invalidDecomposition + One(!StatusAllowed(r)),
      MinOf(p.first, MinOf(r.initialXdp, r.userRaw)), MaxOf(p.last, MaxOf(r.initialXdp, r.userRaw)))
  }

  function CountAll(rows: seq<Row>): Report {
    if rows == [] then EMPTY else Count(CountAll(rows[..|rows| - 1]), rows[|rows| - 1])
  }

  /** The gaps between neighbouring points that touch the capture. */
  predicate Touches(points: seq<Point>, i: nat, first: int, last: int)
    requires i + 1 < |points|
  {
    points[i + 1].time >= first && points[i].time <= last
  }

  ghost predicate GapsOk(points: seq<Point>, first: int, last: int) {
    && (exists i: nat :: i + 1 < |points| && Touches(points, i, first, last))
    && forall i: nat | i + 1 < |points| && Touches(points, i, first, last) :: points[i + 1].time - points[i].time <= MAX_GAP
  }

  ghost predicate Accepted(p: Report, points: seq<Point>)
    requires points != []
  {
    && p.received > 0 && p.first.Some? && p.last.Some?
    && points[0].time <= p.first.value <= p.last.value <= points[|points| - 1].time
    && GapsOk(points, p.first.value, p.last.value)
    && p.missingTotal == p.negativeD1 == p.negativeTotal == p.invalidDecomposition == 0
  }

  function Gap(points: seq<Point>, i: nat): int
    requires i + 1 < |points|
  {
    points[i + 1].time - points[i].time
  }

  /** The largest of the first n gaps that touch the capture, if any. */
  function Widest(points: seq<Point>, n: nat, first: int, last: int): Option<int>
    requires n == 0 || n < |points|
  {
    if n == 0 then None
    else MaxOf(Widest(points, n - 1, first, last), if Touches(points, n - 1, first, last) then Some(Gap(points, n - 1)) else None)
  }

  lemma {:induction false} WidestDecides(points: seq<Point>, n: nat, first: int, last: int, limit: int)
    requires n == 0 || n < |points|
    ensures var w := Widest(points, n, first, last);
            && (w.Some? <==> exists i: nat :: i < n && Touches(points, i, first, last))
            && (w.Some? ==> (w.value <= limit <==> forall i: nat | i < n && Touches(points, i, first, last) :: Gap(points, i) <= limit))
    decreases n
  {
    if n > 0 {
      WidestDecides(points, n - 1, first, last, limit);
    }
  }

  method MaxGap(points: seq<Point>, first: int, last: int) returns (gap: Option<int>)
    requires points != []
    ensures gap == Widest(points, |points| - 1, first, last)
    ensures gap.Some? && gap.value <= MAX_GAP <==> GapsOk(points, first, last)
  {
    gap := None;
    for i := 0 to |points| - 1
      invariant gap == Widest(points, i, first, last)
    {
      if Touches(points, i, first, last) {
        gap := MaxOf(gap, Some(points[i + 1].time - points[i].time));
      }
    }
    WidestDecides(points, |points| - 1, first, last, MAX_GAP);
    assert gap.Some? ==> exists i: nat :: i + 1 < |points| && Touches(points, i, first, last);
    assert forall i: nat | i + 1 < |points| :: Gap(points, i) == points[i + 1].time - points[i].time;
  }

  /** validate_clock. */
  method ValidateClock(rows: seq<Row>, points: seq<Point>) returns (p: Report, accepted: bool)
    requires points != []
    ensures p == CountAll(rows) && accepted == Accepted(p, points)
  {
    p := EMPTY;
    for i := 0 to |rows|
      invariant p == CountAll(rows[..i])
    {
      assert rows[..i + 1][..i] == rows[..i];
      p := Count(p, rows[i]);
    }
    assert rows[..|rows|] == rows;
    accepted := false;
    if p.first.Some? && p.last.Some? {
      var gap := MaxGap(points, p.first.value, p.last.value);
      var covered := points[0].time <= p.first.value <= p.last.value <= points[|points| - 1].time;
      accepted := p.received > 0 && covered && gap.Some? && gap.value <= MAX_GAP
        && p.missingTotal == 0 && p.negativeD1 == 0 && p.negativeTotal == 0 && p.invalidDecomposition == 0;
    }
  }

  // ----- what acceptance means

  /** The report counts every row, sorts it into received or not, and brackets its times. */
  lemma {:induction false} ReportCovers(rows: seq<Row>, k: nat)
    requires k < |rows|
    ensures var p := CountAll(rows);
            && p.packets == |rows| == p.received + p.unreceived
            && (p.invalidDecomposition == 0 ==> StatusAllowed(rows[k]))
            && (rows[k].initialXdp.Some? ==> p.first.Some? && p.last.Some? && p.first.value <= rows[k].initialXdp.value <= p.last.value)
            && (rows[k].userRaw.Some? ==> p.first.Some? && p.last.Some? && p.first.value <= rows[k].userRaw.value <= p.last.value)
    decreases |rows|
  {
    var init := rows[..|rows| - 1];
    PacketsCounted(init);
    if k < |init| {
      ReportCovers(init, k);
    }
  }

  lemma {:induction false} PacketsCounted(rows: seq<Row>)
    ensures CountAll(rows).packets == |rows| == CountAll(rows).received + CountAll(rows).unreceived
    ensures CountAll(rows).first.Some? <==> CountAll(rows).last.Some?
    decreases |rows|
  {
    if rows != [] {
      PacketsCounted(rows[..|rows| - 1]);
    }
  }

  /** A time inside the calibrated range lies between two neighbouring points. */
  lemma {:induction false} Bracket(points: seq<Point>, t: int) returns (i: nat)
    requires |points| >= 2 && points[0].time <= t <= points[|points| - 1].time
    ensures i + 1 < |points| && points[i].time <= t <= points[i + 1].time
    decreases |points|
  {
    if |points| == 2 || points[|points| - 2].time <= t {
      i := |points| - 2;
    } else {
      i := Bracket(points[..|points| - 1], t);
    }
  }

  /** If a capture is accepted, every received packet has its observation times in order,
      non-negative segments that sum to its total, and a hardware time converted by an
      offset that lies between two calibration points at most 500 ms apart. */
  lemma AcceptedMeansOrdered(all: seq<Sources>, rows: seq<Row>, points: seq<Point>, clamp: bool, k: nat) returns (i: nat)
    requires points != [] && Increasing(points) && |rows| == |all|
    requires forall j | 0 <= j < |all| :: rows[j] == JoinedRow(all[j], points, clamp)
    requires Accepted(CountAll(rows), points) && k < |all| && rows[k].userRaw.Some?
    ensures var s := all[k];
            && InitialXdp(s).Some? && UserMono(s).Some? && HwMono(s, points, clamp).Some?
            && HwMono(s, points, clamp).value <= InitialXdp(s).value <= UserMono(s).value
            && (RequestedPath(s) == Some(CPUMAP) ==>
                  CpumapTime(s).Some? && InitialXdp(s).value <= CpumapTime(s).value <= UserMono(s).value)
    ensures var d := rows[k].delays;
            && d.d1.Some? && d.d2.Some? && d.d3.Some? && d.total.Some?
            && 0 <= d.d1.value && 0 <= d.d2.value && 0 <= d.d3.value
            && d.total.value == d.d1.value + d.d2.value + d.d3.value
    ensures var t := InitialXdp(all[k]).value;
            && i + 1 < |points| && points[i].time <= t <= points[i + 1].time && points[i + 1].time - points[i].time <= MAX_GAP
            && LookupAt(points, t, clamp).offset.Some? && !LookupAt(points, t, clamp).outOfRange
            && var o := LookupAt(points, t, clamp).offset.value;
               CommonHw(all[k]).Some? && HwMono(all[k], points, clamp).value == CommonHw(all[k]).value - o
               && (points[i].offset <= o <= points[i + 1].offset || points[i + 1].offset <= o <= points[i].offset)
  {
    var s := all[k];
    ReportCovers(rows, k);
    CompleteRowIsOrdered(s, points, clamp);
    var t := InitialXdp(s).value;
    i := Bracket(points, t);
    assert Touches(points, i, CountAll(rows).first.value, CountAll(rows).last.value);
    LookupInterpolates(points, i, t, clamp);
    ConvertedAtXdp(s, points, clamp);
  }

  // ----- the report in terms of the rows

  predicate Received(r: Row) { r.userRaw.Some? }
  predicate NotReceived(r: Row) { r.userRaw.None? }
  predicate WithoutTotal(r: Row) { r.userRaw.Some? && r.delays.total.None? }
  predicate EarlyXdp(r: Row) { IsNegative(r.delays.d1) }
  predicate NegativeTotal(r: Row) { IsNegative(r.delays.total) }
  predicate Broken(r: Row) { r.status != Complete && (r.status != Incomplete || r.userRaw.Some?) }

  function NumberOf(rows: seq<Row>, such: Row -> bool): nat {
    if rows == [] then 0 else NumberOf(rows[..|rows| - 1], such) + One(such(rows[|rows| - 1]))
  }

  lemma {:induction false} NoneSuch(rows: seq<Row>, such: Row -> bool)
    ensures NumberOf(rows, such) == 0 <==> forall k | 0 <= k < |rows| :: !such(rows[k])
    decreases |rows|
  {
    if rows != [] {
      var init := rows[..|rows| - 1];
      NoneSuch(init, such);
      assert forall k | 0 <= k < |init| :: rows[k] == init[k];
    }
  }

  predicate HasTime(r: Row, t: int) { r.initialXdp == Some(t) || r.userRaw == Some(t) }

  /** Some row has this time. */
  ghost predicate IsTime(rows: seq<Row>, t: int) {
    exists k :: 0 <= k < |rows| && HasTime(rows[k], t)
  }

  ghost predicate IsFirst(rows: seq<Row>, t: int) {
    IsTime(rows, t) && forall u | IsTime(rows, u) :: t <= u
  }

  ghost predicate IsLast(rows: seq<Row>, t: int) {
    IsTime(rows, t) && forall u | IsTime(rows, u) :: u <= t
  }

  lemma TimeSplits(rows: seq<Row>, t: int)
    requires rows != []
    ensures IsTime(rows, t) <==> IsTime(rows[..|rows| - 1], t) || HasTime(rows[|rows| - 1], t)
  {
    var init := rows[..|rows| - 1];
    if IsTime(init, t) {
      var k :| 0 <= k < |init| && HasTime(init[k], t);
      assert HasTime(rows[k], t);
    }
    if IsTime(rows, t) && !HasTime(rows[|rows| - 1], t) {
      var k :| 0 <= k < |rows| && HasTime(rows[k], t);
      assert HasTime(init[k], t);
    }
    if HasTime(rows[|rows| - 1], t) {
      assert IsTime(rows, t);
    }
  }

  /** Every number of the report is the number of rows it names. */
  lemma {:induction false} ReportCounts(rows: seq<Row>)
    ensures var p := CountAll(rows);
            && p.packets == |rows| && p.received == NumberOf(rows, Received) && p.unreceived == NumberOf(rows, NotReceived)
            && p.missingTotal == NumberOf(rows, WithoutTotal) && p.negativeD1 == NumberOf(rows, EarlyXdp)
            && p.negativeTotal == NumberOf(rows, NegativeTotal) && p.invalidDecomposition == NumberOf(rows, Broken)
    decreases |rows|
  {
    if rows != [] {
      ReportCounts(rows[..|rows| - 1]);
    }
  }

  /** The report's range is from the first to the last time of any row. */
  lemma {:induction false} ReportRange(rows: seq<Row>)
    ensures var p := CountAll(rows);
            && (p.first.Some? <==> exists t :: IsTime(rows, t)) && (p.last.Some? <==> p.first.Some?)
            && (p.first.Some? ==> IsFirst(rows, p.first.value) && IsLast(rows, p.last.value))
    decreases |rows|
  {
    if rows != [] {
      var init, r := rows[..|rows| - 1], rows[|rows| - 1];
      ReportRange(init);
      forall t
        ensures IsTime(rows, t) <==> IsTime(init, t) || HasTime(r, t)
      {
        TimeSplits(rows, t);
      }
      RangeGrows(CountAll(init), r, rows, init);
    }
  }

  lemma RangeGrows(p: Report, r: Row, rows: seq<Row>, init: seq<Row>)
    requires forall t :: IsTime(rows, t) <==> IsTime(init, t) || HasTime(r, t)
    requires (p.first.Some? <==> exists t :: IsTime(init, t)) && (p.last.Some? <==> p.first.Some?)
    requires p.first.Some? ==> IsFirst(init, p.first.value) && IsLast(init, p.last.value)
    ensures var q := Count(p, r);
            && (q.first.Some? <==> exists t :: IsTime(rows, t)) && (q.last.Some? <==> q.first.Some?)
            && (q.first.Some? ==> IsFirst(rows, q.first.value) && IsLast(rows, q.last.value))
  {
    var q := Count(p, r);
    if r.initialXdp.Some? {
      assert HasTime(r, r.initialXdp.value);
    }
    if r.userRaw.Some? {
      assert HasTime(r, r.userRaw.value);
    }
    if q.first.Some? {
      assert IsTime(rows, q.first.value) && IsTime(rows, q.last.value);
    }
  }

  /** Gap i lies between two times of the capture, or contains one. */
  ghost predicate InCapture(rows: seq<Row>, points: seq<Point>, i: nat)
    requires i + 1 < |points|
  {
    (exists t :: IsTime(rows, t) && t <= points[i + 1].time) && (exists u :: IsTime(rows, u) && points[i].time <= u)
  }

  /** Acceptance, exactly: something was received, every row is complete or not received, no
      delay is missing or negative where it matters, every time is inside the calibrated range,
      and the calibration has no gap over 500 ms anywhere in the capture. */
  lemma AcceptedExactly(rows: seq<Row>, points: seq<Point>)
    requires points != [] && Increasing(points)
    ensures Accepted(CountAll(rows), points) <==>
              && (exists k :: 0 <= k < |rows| && Received(rows[k]))
              && (forall k | 0 <= k < |rows| ::
                    !Broken(rows[k]) && !WithoutTotal(rows[k]) && !EarlyXdp(rows[k]) && !NegativeTotal(rows[k]))
              && Calibrated(rows, points)
  {
    ReportCounts(rows);
    NoneSuch(rows, Received);
    NoneSuch(rows, Broken);
    NoneSuch(rows, WithoutTotal);
    NoneSuch(rows, EarlyXdp);
    NoneSuch(rows, NegativeTotal);
    ReportRange(rows);
    var p := CountAll(rows);
    if exists k :: 0 <= k < |rows| && Received(rows[k]) {
      var k :| 0 <= k < |rows| && Received(rows[k]);
      assert HasTime(rows[k], rows[k].userRaw.value);
      assert IsTime(rows, rows[k].userRaw.value);
      RangeIsCalibrated(rows, points, p.first.value, p.last.value);
    }
  }

  /** Every time is between two calibration points, and no two neighbouring ones in the capture
      are more than 500 ms apart. */
  ghost predicate Calibrated(rows: seq<Row>, points: seq<Point>) {
    && |points| >= 2
    && (forall t | IsTime(rows, t) :: points[0].time <= t <= points[|points| - 1].time)
    && (forall i: nat | i + 1 < |points| && InCapture(rows, points, i) :: points[i + 1].time - points[i].time <= MAX_GAP)
  }

  lemma RangeIsCalibrated(rows: seq<Row>, points: seq<Point>, first: int, last: int)
    requires points != [] && IsFirst(rows, first) && IsLast(rows, last)
    ensures points[0].time <= first <= last <= points[|points| - 1].time && GapsOk(points, first, last) <==> Calibrated(rows, points)
  {
    TouchesIsInCapture(rows, points, first, last);
    if |points| >= 2 && points[0].time <= first <= points[|points| - 1].time {
      var i := Bracket(points, first);
      assert Touches(points, i, first, last);
    }
  }

  lemma TouchesIsInCapture(rows: seq<Row>, points: seq<Point>, first: int, last: int)
    requires IsFirst(rows, first) && IsLast(rows, last)
    ensures forall i: nat | i + 1 < |points| :: Touches(points, i, first, last) <==> InCapture(rows, points, i)
  {
  }
}
