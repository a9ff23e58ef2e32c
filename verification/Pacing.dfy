/** Absolute-deadline pacing of the sender (udp_socket/src/sender.c) and the packet count
    of a flow (experiment/run_config.c). */
module Pacing {

  const INT64_MAX := 0x7FFF_FFFF_FFFF_FFFF
  const NS_PER_S := 1_000_000_000
  const NS_PER_MS := 1_000_000

  datatype Timespec = Timespec(sec: int, nsec: int)

  predicate Normal(t: Timespec) { 0 <= t.nsec < NS_PER_S }

  function Nanoseconds(t: Timespec): int { t.sec * NS_PER_S + t.nsec }

  function Split(ns: nat): (t: Timespec)
    ensures Normal(t) && Nanoseconds(t) == ns
  {
    Timespec(ns / NS_PER_S, ns % NS_PER_S)
  }

  /** Adding a period keeps a time normal and adds exactly that many nanoseconds. */
  function AddNs(t: Timespec, ns: nat): (r: Timespec)
    requires Normal(t)
    ensures Normal(r) && Nanoseconds(r) == Nanoseconds(t) + ns
  {
    var sec, nsec := t.sec + ns / NS_PER_S, t.nsec + ns % NS_PER_S;
    if nsec >= NS_PER_S then Timespec(sec + 1, nsec - NS_PER_S) else Timespec(sec, nsec)
  }

  /** The guard before the first packet: base and period are at most INT64_MAX, the count at
      least 1. */
  predicate GuardPasses(base: nat, period: nat, count: nat)
    requires base <= INT64_MAX && 0 < period && 0 < count
  {
    count - 1 <= (INT64_MAX - base) / period
  }

  function Deadline(base: nat, period: nat, k: nat): int { base + k * period }

  lemma MulMonotone(j: nat, k: nat, period: nat)
    requires j <= k
    ensures j * period <= k * period
  {
  }

  /** It passes exactly when the last deadline is representable, and then all are. */
  lemma GuardIsExact(base: nat, period: nat, count: nat)
    requires base <= INT64_MAX && 0 < period && 0 < count
    ensures GuardPasses(base, period, count) <==> base + (count - 1) * period <= INT64_MAX
    ensures GuardPasses(base, period, count) ==> forall k: nat | k < count :: Deadline(base, period, k) <= INT64_MAX
  {
    var room := INT64_MAX - base;
    var q := room / period;
    assert room == q * period + room % period;
    if count - 1 <= q {
      MulMonotone(count - 1, q, period);
      forall k: nat | k < count
        ensures Deadline(base, period, k) <= INT64_MAX
      {
        MulMonotone(k, count - 1, period);
      }
    } else {
      MulMonotone(q + 1, count - 1, period);
      assert (q + 1) * period == q * period + period;
    }
  }

  /** The pacing loop: the k-th deadline is base + k * period to the nanosecond, whatever
      happened before it, as a normal timespec that fits 64 bits. */
  method Pace(base: nat, period: nat, count: nat) returns (ok: bool, deadlines: seq<Timespec>)
    requires base <= INT64_MAX && 0 < period <= INT64_MAX && 0 < count
    ensures ok <==> base + (count - 1) * period <= INT64_MAX
    ensures ok ==> |deadlines| == count
    ensures ok ==> forall k | 0 <= k < count ::
              Normal(deadlines[k]) && Nanoseconds(deadlines[k]) == Deadline(base, period, k) && 0 <= deadlines[k].sec && Nanoseconds(deadlines[k]) <= INT64_MAX
    ensures !ok ==> deadlines == []
  {
    GuardIsExact(base, period, count);
    deadlines := [];
    if count - 1 > (INT64_MAX - base) / period {
      return false, [];
    }
    var next := Split(base);
    for k := 0 to count
      invariant |deadlines| == k && Normal(next)
      invariant Nanoseconds(next) == Deadline(base, period, if k == 0 then 0 else k - 1)
      invariant forall j | 0 <= j < k :: Normal(deadlines[j]) && Nanoseconds(deadlines[j]) == Deadline(base, period, j)
    {
      if k != 0 {
        next := AddNs(next, period);
        DeadlineStep(base, period, k - 1);
      }
      deadlines := deadlines + [next];
    }
    forall k | 0 <= k < count
      ensures 0 <= deadlines[k].sec && Nanoseconds(deadlines[k]) <= INT64_MAX
    {
      DeadlinePositive(base, period, k);
      SecondsPositive(deadlines[k]);
    }
    ok := true;
  }

  lemma DeadlineStep(base: nat, period: nat, k: nat)
    ensures Deadline(base, period, k + 1) == Deadline(base, period, k) + period
  {
    assert (k + 1) * period == k * period + period;
  }

  lemma DeadlinePositive(base: nat, period: nat, k: nat)
    ensures Deadline(base, period, k) >= base
  {
    MulMonotone(0, k, period);
  }

  lemma SecondsPositive(t: Timespec)
    requires Normal(t) && Nanoseconds(t) >= 0
    ensures t.sec >= 0
  {
  }

  // ----- the number of packets

  function FlowCount(durationMs: nat, period: nat): (n: nat)
    requires 0 < period
  {
    (durationMs * NS_PER_MS + period - 1) / period
  }

  /** The last packet of a flow is due strictly inside the duration; one more would not be. */
  lemma FlowCountExact(durationMs: nat, period: nat)
    requires 0 < period && 0 < durationMs
    ensures var n, d := FlowCount(durationMs, period), durationMs * NS_PER_MS;
            0 < n && (n - 1) * period < d <= n * period
  {
    var d := durationMs * NS_PER_MS;
    var n := FlowCount(durationMs, period);
    assert d + period - 1 == n * period + (d + period - 1) % period;
    assert n * period == (n - 1) * period + period;
  }

  /** The whole run of a flow with that count: the first packet at the base, the last one
      before base + duration, and the next would be at or after it. */
  lemma PacedWithinDuration(base: nat, durationMs: nat, period: nat)
    requires 0 < period && 0 < durationMs && base + durationMs * NS_PER_MS <= INT64_MAX
    ensures var n := FlowCount(durationMs, period);
            && 0 < n && GuardPasses(base, period, n)
            && base + (n - 1) * period < base + durationMs * NS_PER_MS <= base + n * period
  {
    FlowCountExact(durationMs, period);
    GuardIsExact(base, period, FlowCount(durationMs, period));
  }
}
