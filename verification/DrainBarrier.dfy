/** The wait between detaching XDP and exporting the record maps
    (wait_for_cpumap_records in BPF/xdp_loader.c).

    The loader learns the counters one CPU and one counter at a time, while the measuring
    CPU may still be working. */
module DrainBarrier {
  import opened Wrappers
  import opened XdpAccounting

  const DRAIN_TIMEOUT_MS := 5000
  const DRAIN_POLL_MS := 10
  const DRAIN_GRACE_MS := 100
  const LOSS_QUIET_MS := 1000
  const STABLE_POLLS := 10
  const UINT64_MAX := 0xFFFF_FFFF_FFFF_FFFF

  // ----- the moving world

  /** The five counters, in the order they are read. */
  datatype Which = OfRecorded | OfDuplicate | OfUpdateError | OfInvalid | OfRequested

  datatype PerCpu = PerCpu(recorded: nat, duplicate: nat, updateError: nat, invalid: nat, requested: nat)

  function Part(p: PerCpu, which: Which): nat {
    match which
    case OfRecorded => p.recorded
    case OfDuplicate => p.duplicate
    case OfUpdateError => p.updateError
    case OfInvalid => p.invalid
    case OfRequested => p.requested
  }

  function Total(cpus: seq<PerCpu>, which: Which): nat {
    if cpus == [] then 0 else Total(cpus[..|cpus| - 1], which) + Part(cpus[|cpus| - 1], which)
  }

  /** One instant: the counters as spread over the CPUs, the redirected packets not yet
      accounted for (in flight, lost, or inserted but not counted), and the number of records
      of the measuring CPU. */
  datatype Moment = Moment(cpus: seq<PerCpu>, open: int, records: nat)

  predicate Law(m: Moment, ncpu: nat) {
    && |m.cpus| == ncpu && m.open >= 0 && Total(m.cpus, OfRecorded) <= m.records <= Total(m.cpus, OfRecorded) + m.open
    && Total(m.cpus, OfRequested) ==
       Total(m.cpus, OfRecorded) + Total(m.cpus, OfDuplicate) + Total(m.cpus, OfUpdateError) + Total(m.cpus, OfInvalid) + m.open
  }

  /** The accounting laws give this one, however the counters are spread over CPUs. */
  lemma BooksObeyLaw(b: Books, mode: Mode, capacity: nat, cpus: seq<PerCpu>)
    requires BooksOk(b, mode, capacity)
    requires Total(cpus, OfRecorded) == b.stats.cpumapRecorded && Total(cpus, OfDuplicate) == b.stats.cpumapDuplicate
    requires Total(cpus, OfUpdateError) == b.stats.cpumapUpdateError && Total(cpus, OfInvalid) == b.stats.cpumapMetaInvalid
    requires Total(cpus, OfRequested) == b.stats.cpumap
    ensures Law(Moment(cpus, Open(b), |b.measured|), |cpus|)
  {
  }

  /** No counter of any CPU ever goes down. */
  ghost predicate Growing(world: nat -> Moment, ncpu: nat) {
    && (forall t :: |world(t).cpus| == ncpu)
    && (forall t, u, c, which | t <= u && 0 <= c < ncpu :: Part(world(t).cpus[c], which) <= Part(world(u).cpus[c], which))
  }

  /** The law holds at every instant, and no counter ever goes down. */
  ghost predicate Lawful(world: nat -> Moment, ncpu: nat) {
    (forall t :: Law(world(t), ncpu)) && Growing(world, ncpu)
  }

  /** From instant `d` on no new redirect is requested. */
  ghost predicate DetachedAt(world: nat -> Moment, d: nat) {
    forall t | d <= t :: Total(world(t).cpus, OfRequested) == Total(world(d).cpus, OfRequested)
  }

  // ----- what skewed readings still tell

  lemma {:induction false} TotalGrows(a: seq<PerCpu>, b: seq<PerCpu>, which: Which)
    requires |a| == |b| && forall c | 0 <= c < |a| :: Part(a[c], which) <= Part(b[c], which)
    ensures Total(a, which) <= Total(b, which)
    decreases |a|
  {
    if a != [] {
      TotalGrows(a[..|a| - 1], b[..|b| - 1], which);
    }
  }

  /** Once nothing is open and nothing more is requested, nothing changes any more. */
  lemma DrainedStaysDrained(world: nat -> Moment, ncpu: nat, t: nat, u: nat)
    requires Lawful(world, ncpu) && t <= u && world(t).open == 0
    requires Total(world(u).cpus, OfRequested) == Total(world(t).cpus, OfRequested)
    ensures world(u).open == 0 && world(u).records == world(t).records
  {
    assert Law(world(t), ncpu) && Law(world(u), ncpu);
    TotalGrows(world(t).cpus, world(u).cpus, OfRecorded);
    TotalGrows(world(t).cpus, world(u).cpus, OfDuplicate);
    TotalGrows(world(t).cpus, world(u).cpus, OfUpdateError);
    TotalGrows(world(t).cpus, world(u).cpus, OfInvalid);
  }

  /** Once nothing is open and nothing more is requested, no counter moves. */
  lemma DrainedIsStill(world: nat -> Moment, ncpu: nat, t: nat)
    requires Lawful(world, ncpu) && world(t).open == 0 && DetachedAt(world, t)
    ensures StillFrom(world, t)
  {
    forall u, which | t <= u
      ensures Total(world(u).cpus, which) == Total(world(t).cpus, which)
    {
      assert Law(world(t), ncpu) && Law(world(u), ncpu);
      TotalGrows(world(t).cpus, world(u).cpus, OfRecorded);
      TotalGrows(world(t).cpus, world(u).cpus, OfDuplicate);
      TotalGrows(world(t).cpus, world(u).cpus, OfUpdateError);
      TotalGrows(world(t).cpus, world(u).cpus, OfInvalid);
      match which
      case OfRecorded =>
      case OfDuplicate =>
      case OfUpdateError =>
      case OfInvalid =>
      case OfRequested =>
    }
  }

  /** A poll saw no more outcomes than there were at instant `pivot`, and no fewer requests. */
  predicate Conservative(m: Moment, requested: nat, terminal: nat) {
    terminal + m.open <= Total(m.cpus, OfRequested) <= requested
  }

  /** Readings of the four outcomes made before an instant, and of the requests made after it,
      are conservative for that instant. */
  lemma SkewIsConservative(world: nat -> Moment, ncpu: nat, recorded: nat, duplicate: nat, updateError: nat, invalid: nat, requested: nat,
                           times: seq<nat>, pivot: nat)
    requires Lawful(world, ncpu) && |times| == 5 && (forall i | 0 <= i < 4 :: times[i] <= pivot) && pivot <= times[4]
    requires recorded <= Total(world(times[0]).cpus, OfRecorded) && duplicate <= Total(world(times[1]).cpus, OfDuplicate)
    requires updateError <= Total(world(times[2]).cpus, OfUpdateError) && invalid <= Total(world(times[3]).cpus, OfInvalid)
    requires requested >= Total(world(times[4]).cpus, OfRequested)
    ensures Conservative(world(pivot), requested, recorded + duplicate + updateError + invalid)
  {
    assert Law(world(pivot), ncpu);
    WorldGrows(world, ncpu, times[0], pivot, OfRecorded);
    WorldGrows(world, ncpu, times[1], pivot, OfDuplicate);
    WorldGrows(world, ncpu, times[2], pivot, OfUpdateError);
    WorldGrows(world, ncpu, times[3], pivot, OfInvalid);
    WorldGrows(world, ncpu, pivot, times[4], OfRequested);
  }

  /** All outcomes counted at one instant. */
  function Outcomes(m: Moment): nat {
    Total(m.cpus, OfRecorded) + Total(m.cpus, OfDuplicate) + Total(m.cpus, OfUpdateError) + Total(m.cpus, OfInvalid)
  }

  /** A poll saw at least what was counted when it began, and no more requests than when it
      ended. */
  predicate UpToDate(begin: Moment, end: Moment, requested: nat, terminal: nat) {
    Outcomes(begin) <= terminal && requested <= Total(end.cpus, OfRequested)
  }

  /** No counter moves from instant `t` on. */
  ghost predicate StillFrom(world: nat -> Moment, t: nat) {
    forall u, which | t <= u :: Total(world(u).cpus, which) == Total(world(t).cpus, which)
  }

  /** A poll of a world at rest sees it exactly. */
  lemma RestIsSeen(world: nat -> Moment, ncpu: nat, rest: nat, begin: nat, pivot: nat, end: nat, requested: nat, terminal: nat)
    requires Lawful(world, ncpu) && StillFrom(world, rest) && rest <= begin && rest <= pivot && rest <= end
    requires Conservative(world(pivot), requested, terminal) && UpToDate(world(begin), world(end), requested, terminal)
    ensures requested == Total(world(rest).cpus, OfRequested) && terminal == requested - world(rest).open
  {
    assert Law(world(rest), ncpu) && Law(world(pivot), ncpu);
  }

  lemma WorldGrows(world: nat -> Moment, ncpu: nat, t: nat, u: nat, which: Which)
    requires Lawful(world, ncpu) && t <= u
    ensures Total(world(t).cpus, which) <= Total(world(u).cpus, which)
  {
    assert Law(world(t), ncpu) && Law(world(u), ncpu);
    TotalGrows(world(t).cpus, world(u).cpus, which);
  }

  /** A poll that sees requested equal to terminal proves that at that instant nothing was
      in flight or lost; once XDP is detached that stays so, and the record map of the
      measuring CPU has its final content. */
  lemma EqualMeansDrained(world: nat -> Moment, ncpu: nat, requested: nat, terminal: nat, pivot: nat, detached: nat, later: nat)
    requires Lawful(world, ncpu) && Conservative(world(pivot), requested, terminal) && requested == terminal
    requires detached <= pivot <= later && DetachedAt(world, detached)
    ensures world(pivot).open == 0 && world(later).open == 0 && world(later).records == world(pivot).records
  {
    assert Law(world(pivot), ncpu);
    DrainedStaysDrained(world, ncpu, pivot, later);
  }

  // ----- the wait

  datatype Report = Report(requested: nat, terminal: nat, unobserved: nat)
  datatype Drain = Drained(report: Report) | LookupFailed | TimedOut

  /** What the polls of a wait saw, and which of them had a failing lookup. */
  datatype Polls = Polls(requested: nat -> nat, terminal: nat -> nat, fails: nat -> bool)

  function Requested(p: Polls, k: nat): nat { p.requested(k) }

  function Terminal(p: Polls, k: nat): nat { p.terminal(k) }

  predicate Fails(p: Polls, k: nat) { p.fails(k) }

  /** Polls k-n .. k all saw the same two numbers. */
  ghost predicate Steady(p: Polls, k: nat, n: nat) {
    forall j: nat | k - n <= j <= k :: Requested(p, j) == Requested(p, k) && Terminal(p, j) == Terminal(p, k)
  }

  /** Poll k repeats the one before; the first is compared with the largest 64-bit values. */
  predicate Unchanged(p: Polls, k: nat) {
    if k == 0 then Requested(p, 0) == UINT64_MAX && Terminal(p, 0) == UINT64_MAX
    else Requested(p, k) == Requested(p, k - 1) && Terminal(p, k) == Terminal(p, k - 1)
  }

  /** How many polls in a row, up to poll k, repeated the one before. */
  function Repeats(p: Polls, k: nat): (n: nat)
    ensures n <= k + 1
  {
    if !Unchanged(p, k) then 0 else if k == 0 then 1 else Repeats(p, k - 1) + 1
  }

  lemma {:induction false} SteadyIsRepeats(p: Polls, k: nat, n: nat)
    requires n <= k
    ensures Steady(p, k, n) <==> n <= Repeats(p, k)
    decreases k
  {
    if n > 0 {
      SteadyIsRepeats(p, k - 1, n - 1);
      if Steady(p, k, n) {
        assert Unchanged(p, k);
        forall j: nat | k - n <= j <= k - 1
          ensures Requested(p, j) == Requested(p, k - 1) && Terminal(p, j) == Terminal(p, k - 1)
        {
        }
      }
    }
  }

  /** Only equal readings can repeat the initial values. */
  lemma {:induction false} LossChanged(p: Polls, k: nat)
    requires Requested(p, k) != Terminal(p, k)
    ensures Repeats(p, k) <= k
    decreases k
  {
    if k > 0 && Unchanged(p, k) {
      LossChanged(p, k - 1);
    }
  }

  /** The two ways to succeed at poll k, and the way to give up. */
  predicate AllObserved(p: Polls, k: nat) {
    Requested(p, k) == Terminal(p, k) && k * DRAIN_POLL_MS >= DRAIN_GRACE_MS && Repeats(p, k) >= STABLE_POLLS
  }

  predicate LossAccepted(p: Polls, k: nat) {
    && k * DRAIN_POLL_MS == DRAIN_TIMEOUT_MS
    && Requested(p, k) > Terminal(p, k) && Repeats(p, k) * DRAIN_POLL_MS >= LOSS_QUIET_MS
  }

  predicate Decided(p: Polls, k: nat, result: Drain) {
    if Fails(p, k) then result == LookupFailed
    else if AllObserved(p, k) then result == Drained(Report(Requested(p, k), Terminal(p, k), 0))
    else if LossAccepted(p, k) then result == Drained(Report(Requested(p, k), Terminal(p, k), Requested(p, k) - Terminal(p, k)))
    else result == TimedOut && k * DRAIN_POLL_MS == DRAIN_TIMEOUT_MS
  }

  /** One poll as it was seen. */
  datatype Reading = Reading(ok: bool, requested: nat, terminal: nat)

  /** The polls made so far. */
  function PollsOf(h: seq<Reading>): Polls {
    Polls((k: nat) => if k < |h| then h[k].requested else 0, (k: nat) => if k < |h| then h[k].terminal else 0,
          (k: nat) => k < |h| && !h[k].ok)
  }

  lemma {:induction false} RepeatsStay(h: seq<Reading>, x: Reading, k: nat)
    requires k < |h|
    ensures Repeats(PollsOf(h + [x]), k) == Repeats(PollsOf(h), k)
    decreases k
  {
    if k > 0 {
      RepeatsStay(h, x, k - 1);
    }
  }

  /** None of the polls so far ended the wait. */
  ghost predicate GoingOn(h: seq<Reading>) {
    forall j: nat | j < |h| :: !Fails(PollsOf(h), j) && !AllObserved(PollsOf(h), j)
  }

  lemma GoesOn(h: seq<Reading>, x: Reading)
    requires GoingOn(h)
    ensures forall j: nat | j < |h| :: !Fails(PollsOf(h + [x]), j) && !AllObserved(PollsOf(h + [x]), j)
  {
    forall j: nat | j < |h|
      ensures !Fails(PollsOf(h + [x]), j) && !AllObserved(PollsOf(h + [x]), j)
    {
      RepeatsStay(h, x, j);
      assert !Fails(PollsOf(h), j) && !AllObserved(PollsOf(h), j);
    }
  }

  /** The loader after the detach: it reads one counter of one CPU at a time while the world
      moves on.  `pause` is the time that passes after each reading, `broken` says which lookups
      of which poll fail. */
  class Waiter {
    const world: nat -> Moment
    const ncpu: nat
    const pause: nat -> nat
    const broken: (nat, Which) -> bool
    var now: nat

    constructor (world: nat -> Moment, ncpu: nat, pause: nat -> nat, broken: (nat, Which) -> bool, now: nat)
      ensures this.world == world && this.ncpu == ncpu && this.pause == pause && this.broken == broken && this.now == now
    {
      this.world, this.ncpu, this.pause, this.broken, this.now := world, ncpu, pause, broken, now;
    }

    /** lookup_stat_total: the sum lies between the totals before and after the lookup. */
    method LookupStatTotal(k: nat, which: Which) returns (ok: bool, total: nat)
      requires Growing(world, ncpu)
      modifies this`now
      ensures old(now) <= now && ok == !broken(k, which)
      ensures ok ==> Total(world(old(now)).cpus, which) <= total <= Total(world(now).cpus, which)
    {
      total := 0;
      if broken(k, which) {
        return false, 0;
      }
      NothingRead(world, ncpu, now, which);
      for cpu := 0 to ncpu
        invariant old(now) <= now && Between(world, ncpu, old(now), now, cpu, which, total)
      {
        total := ReadCpu(cpu, which, total, old(now));
      }
      WholeSum(world, ncpu, old(now), now, which, total);
      ok := true;
    }

    method ReadCpu(cpu: nat, which: Which, total: nat, ghost start: nat) returns (sum: nat)
      requires Growing(world, ncpu) && cpu < ncpu && start <= now && Between(world, ncpu, start, now, cpu, which, total)
      modifies this`now
      ensures start <= now && Between(world, ncpu, start, now, cpu + 1, which, sum)
    {
      ReadOne(world, ncpu, start, now, now + pause(now), cpu, which, total);
      sum := total + Part(world(now).cpus[cpu], which);
      now := now + pause(now);
    }

    /** One poll: the four outcomes first, then the requests. */
    method PollOnce(k: nat) returns (r: Reading, ghost pivot: nat)
      requires Lawful(world, ncpu)
      modifies this`now
      ensures old(now) <= pivot <= now
      ensures r.ok <==> AllAnswer(broken, k)
      ensures r.ok ==> Conservative(world(pivot), r.requested, r.terminal)
      ensures r.ok ==> UpToDate(world(old(now)), world(now), r.requested, r.terminal)
    {
      pivot := now;
      var failed := Reading(false, 0, 0);
      var ok, recorded := LookupStatTotal(k, OfRecorded);
      ghost var t0 := now;
      if !ok { return failed, pivot; }
      var duplicate, updateError, invalid, requested;
      ok, duplicate := LookupStatTotal(k, OfDuplicate);
      ghost var t1 := now;
      if !ok { return failed, pivot; }
      ok, updateError := LookupStatTotal(k, OfUpdateError);
      ghost var t2 := now;
      if !ok { return failed, pivot; }
      ok, invalid := LookupStatTotal(k, OfInvalid);
      pivot := now;
      if !ok { return failed, pivot; }
      ok, requested := LookupStatTotal(k, OfRequested);
      if !ok { return failed, pivot; }
      r := Reading(true, requested, recorded + duplicate + updateError + invalid);
      PollIsSound(world, ncpu, recorded, duplicate, updateError, invalid, requested, old(now), t0, t1, t2, pivot, now);
      AllLookups(broken, k);
    }

    /** One turn of the loop. */
    method Turn(elapsed: nat, track: Track, ghost h: seq<Reading>, ghost start: nat)
      returns (decision: Option<Drain>, next: Track, ghost all: seq<Reading>, ghost pivot: nat)
      requires Lawful(world, ncpu) && elapsed == |h| * DRAIN_POLL_MS <= DRAIN_TIMEOUT_MS && start <= now
      requires GoingOn(h) && Tracks(h, track) && Answers(broken, h) && SeesRest(world, start, h)
      modifies this`now
      ensures |all| == |h| + 1 && start <= pivot <= now && Answers(broken, all) && SeesRest(world, start, all)
      ensures decision.None? ==> GoingOn(all) && Tracks(all, next) && elapsed < DRAIN_TIMEOUT_MS
      ensures decision.Some? ==> Ended(PollsOf(all), |h|, decision.value) && Truthful(world, start, pivot, decision.value)
    {
      ghost var begin := now;
      var r, k := Reading(false, 0, 0), elapsed / DRAIN_POLL_MS;
      assert k == |h|;
      r, pivot := PollOnce(k);
      all := h + [r];
      SeesMore(world, ncpu, start, begin, pivot, now, h, r);
      AnswersMore(broken, h, r);
      decision, next := Judge(r, elapsed, track, h);
      if decision.Some? && r.ok {
        EndIsTruthful(world, ncpu, start, pivot, all, decision.value);
      }
    }

    /** The wait ends at the first poll that fails, finds everything observed, or is the last
        one in time, and always by a decision: the loop condition never ends it.  The report is
        never better than the world at some instant of its last poll, and a world at rest is
        reported as it is: with success if nothing is open, and else with what is open. */
    method WaitForCpumapRecords() returns (result: Drain, ghost h: seq<Reading>, ghost pivot: nat)
      requires Lawful(world, ncpu)
      modifies this`now
      ensures h != [] && Ended(PollsOf(h), |h| - 1, result)
      ensures Answers(broken, h) && old(now) <= pivot <= now && Truthful(world, old(now), pivot, result)
    {
      var track, elapsed := Track(UINT64_MAX, UINT64_MAX, 0, 0), 0;
      h, pivot := [], now;
      result := TimedOut;
      while elapsed <= DRAIN_TIMEOUT_MS
        invariant elapsed == |h| * DRAIN_POLL_MS <= DRAIN_TIMEOUT_MS && old(now) <= now
        invariant GoingOn(h) && Tracks(h, track) && Answers(broken, h) && SeesRest(world, old(now), h)
        decreases DRAIN_TIMEOUT_MS - elapsed
      {
        var decision;
        decision, track, h, pivot := Turn(elapsed, track, h, old(now));
        if decision.Some? {
          return decision.value, h, pivot;
        }
        elapsed := elapsed + DRAIN_POLL_MS;
      }
      assert false;
    }
  }

  /** What the wait remembers between two polls. */
  datatype Track = Track(previousRequested: nat, previousTerminal: nat, stable: nat, lastChange: nat)

  ghost predicate Tracks(h: seq<Reading>, t: Track) {
    if h == [] then t == Track(UINT64_MAX, UINT64_MAX, 0, 0)
    else
      var k := |h| - 1;
      && t.previousRequested == h[k].requested && t.previousTerminal == h[k].terminal
      && t.stable == Repeats(PollsOf(h), k)
      && t.lastChange == if t.stable == |h| then 0 else (k - t.stable) * DRAIN_POLL_MS
  }

  /** The comparison with the poll before. */
  method Note(track: Track, r: Reading, elapsed: nat, ghost h: seq<Reading>) returns (t: Track)
    requires Tracks(h, track) && elapsed == |h| * DRAIN_POLL_MS
    ensures Tracks(h + [r], t)
  {
    ghost var all, k := h + [r], |h|;
    if h != [] {
      RepeatsStay(h, r, k - 1);
    }
    if r.requested == track.previousRequested && r.terminal == track.previousTerminal {
      t := Track(r.requested, r.terminal, track.stable + 1, track.lastChange);
    } else {
      t := Track(r.requested, r.terminal, 0, elapsed);
    }
    assert Unchanged(PollsOf(all), k) <==> r.requested == track.previousRequested && r.terminal == track.previousTerminal;
  }

  /** What one poll decides, if anything. */
  method Judge(r: Reading, elapsed: nat, track: Track, ghost h: seq<Reading>) returns (decision: Option<Drain>, next: Track)
    requires elapsed == |h| * DRAIN_POLL_MS <= DRAIN_TIMEOUT_MS && GoingOn(h) && Tracks(h, track)
    ensures decision.None? ==> GoingOn(h + [r]) && Tracks(h + [r], next) && elapsed < DRAIN_TIMEOUT_MS
    ensures decision.Some? ==> Ended(PollsOf(h + [r]), |h|, decision.value)
    ensures !r.ok ==> decision == Some(LookupFailed)
  {
    GoesOn(h, r);
    if !r.ok {
      return Some(LookupFailed), track;
    }
    next := Note(track, r, elapsed, h);
    decision := Decide(r, elapsed, next, h + [r]);
  }

  /** What one successful poll decides, if anything. */
  method Decide(r: Reading, elapsed: nat, track: Track, ghost h: seq<Reading>) returns (decision: Option<Drain>)
    requires h != [] && h[|h| - 1] == r && r.ok && Tracks(h, track) && elapsed == (|h| - 1) * DRAIN_POLL_MS <= DRAIN_TIMEOUT_MS
    requires forall j: nat | j < |h| - 1 :: !Fails(PollsOf(h), j) && !AllObserved(PollsOf(h), j)
    ensures decision.Some? ==> Decided(PollsOf(h), |h| - 1, decision.value)
    ensures decision.None? ==> GoingOn(h) && elapsed < DRAIN_TIMEOUT_MS
  {
    if r.requested == r.terminal && elapsed >= DRAIN_GRACE_MS && track.stable >= STABLE_POLLS {
      EndsObserved(h, track);
      return Some(Drained(Report(r.requested, r.terminal, 0)));
    }
    if elapsed == DRAIN_TIMEOUT_MS {
      EndsLate(h, track);
      if r.requested > r.terminal && elapsed - track.lastChange >= LOSS_QUIET_MS && track.stable >= STABLE_POLLS {
        return Some(Drained(Report(r.requested, r.terminal, r.requested - r.terminal)));
      }
      return Some(TimedOut);
    }
    NotObserved(h, track);
    return None;
  }

  lemma EndsObserved(h: seq<Reading>, t: Track)
    requires h != [] && Tracks(h, t)
    requires var r := h[|h| - 1]; r.ok && r.requested == r.terminal && (|h| - 1) * DRAIN_POLL_MS >= DRAIN_GRACE_MS && t.stable >= STABLE_POLLS
    ensures var r := h[|h| - 1]; Decided(PollsOf(h), |h| - 1, Drained(Report(r.requested, r.terminal, 0)))
  {
  }

  lemma EndsLate(h: seq<Reading>, t: Track)
    requires h != [] && Tracks(h, t) && (|h| - 1) * DRAIN_POLL_MS == DRAIN_TIMEOUT_MS
    requires var r := h[|h| - 1]; r.ok && !(r.requested == r.terminal && t.stable >= STABLE_POLLS)
    ensures var r := h[|h| - 1];
            Decided(PollsOf(h), |h| - 1,
                    if r.requested > r.terminal && DRAIN_TIMEOUT_MS - t.lastChange >= LOSS_QUIET_MS && t.stable >= STABLE_POLLS
                    then Drained(Report(r.requested, r.terminal, r.requested - r.terminal)) else TimedOut)
  {
    var r, k := h[|h| - 1], |h| - 1;
    if r.requested > r.terminal {
      LossChanged(PollsOf(h), k);
    }
  }

  lemma NotObserved(h: seq<Reading>, t: Track)
    requires h != [] && Tracks(h, t) && (forall j: nat | j < |h| - 1 :: !Fails(PollsOf(h), j) && !AllObserved(PollsOf(h), j))
    requires var r := h[|h| - 1]; r.ok && !(r.requested == r.terminal && (|h| - 1) * DRAIN_POLL_MS >= DRAIN_GRACE_MS && t.stable >= STABLE_POLLS)
    ensures GoingOn(h)
  {
  }

  /** Five lookups one after the other. */
  lemma PollIsSound(world: nat -> Moment, ncpu: nat, recorded: nat, duplicate: nat, updateError: nat, invalid: nat, requested: nat,
                    begin: nat, t0: nat, t1: nat, t2: nat, pivot: nat, end: nat)
    requires Lawful(world, ncpu) && begin <= t0 <= t1 <= t2 <= pivot <= end
    requires Total(world(begin).cpus, OfRecorded) <= recorded <= Total(world(t0).cpus, OfRecorded)
    requires Total(world(t0).cpus, OfDuplicate) <= duplicate <= Total(world(t1).cpus, OfDuplicate)
    requires Total(world(t1).cpus, OfUpdateError) <= updateError <= Total(world(t2).cpus, OfUpdateError)
    requires Total(world(t2).cpus, OfInvalid) <= invalid <= Total(world(pivot).cpus, OfInvalid)
    requires Total(world(pivot).cpus, OfRequested) <= requested <= Total(world(end).cpus, OfRequested)
    ensures Conservative(world(pivot), requested, recorded + duplicate + updateError + invalid)
    ensures UpToDate(world(begin), world(end), requested, recorded + duplicate + updateError + invalid)
  {
    SkewIsConservative(world, ncpu, recorded, duplicate, updateError, invalid, requested, [t0, t1, t2, pivot, pivot], pivot);
    WorldGrows(world, ncpu, begin, t0, OfDuplicate);
    WorldGrows(world, ncpu, begin, t1, OfUpdateError);
    WorldGrows(world, ncpu, begin, t2, OfInvalid);
  }

  /** No lookup of poll k fails. */
  ghost predicate AllAnswer(broken: (nat, Which) -> bool, k: nat) {
    forall which :: !broken(k, which)
  }

  lemma AllLookups(broken: (nat, Which) -> bool, k: nat)
    requires !broken(k, OfRecorded) && !broken(k, OfDuplicate) && !broken(k, OfUpdateError) && !broken(k, OfInvalid) && !broken(k, OfRequested)
    ensures AllAnswer(broken, k)
  {
    forall which: Which
      ensures !broken(k, which)
    {
      match which
      case OfRecorded =>
      case OfDuplicate =>
      case OfUpdateError =>
      case OfInvalid =>
      case OfRequested =>
    }
  }

  /** The sum over the first CPUs lies between what it was at the start and what it is now. */
  ghost predicate Between(world: nat -> Moment, ncpu: nat, start: nat, now: nat, cpus: nat, which: Which, total: nat)
    requires forall t :: |world(t).cpus| == ncpu
  {
    cpus <= ncpu && Total(world(start).cpus[..cpus], which) <= total <= Total(world(now).cpus[..cpus], which)
  }

  lemma NothingRead(world: nat -> Moment, ncpu: nat, now: nat, which: Which)
    requires Growing(world, ncpu)
    ensures Between(world, ncpu, now, now, 0, which, 0)
  {
    assert world(now).cpus[..0] == [];
  }

  /** One more CPU's share keeps it so. */
  lemma ReadOne(world: nat -> Moment, ncpu: nat, start: nat, now: nat, next: nat, cpu: nat, which: Which, total: nat)
    requires Growing(world, ncpu) && start <= now <= next && cpu < ncpu && Between(world, ncpu, start, now, cpu, which, total)
    ensures Between(world, ncpu, start, next, cpu + 1, which, total + Part(world(now).cpus[cpu], which))
  {
    var a, b, c := world(start).cpus, world(now).cpus, world(next).cpus;
    assert a[..cpu + 1][..cpu] == a[..cpu] && c[..cpu + 1][..cpu] == c[..cpu];
    assert Part(a[cpu], which) <= Part(b[cpu], which) <= Part(c[cpu], which);
    TotalGrows(b[..cpu], c[..cpu], which);
  }

  lemma WholeSum(world: nat -> Moment, ncpu: nat, start: nat, now: nat, which: Which, total: nat)
    requires Growing(world, ncpu) && Between(world, ncpu, start, now, ncpu, which, total)
    ensures Total(world(start).cpus, which) <= total <= Total(world(now).cpus, which)
  {
    assert world(start).cpus[..ncpu] == world(start).cpus && world(now).cpus[..ncpu] == world(now).cpus;
  }

  /** What success means: the report balances, and the last eleven polls agreed; a reported
      loss needs the full window and a last second (101 polls) without any change. */
  lemma SuccessIsSteady(p: Polls, k: nat, result: Drain)
    requires Decided(p, k, result) && result.Drained?
    ensures var r := result.report;
            && r.requested == Requested(p, k) && r.terminal == Terminal(p, k) && r.unobserved == r.requested - r.terminal
            && STABLE_POLLS <= k && Steady(p, k, STABLE_POLLS)
            && (r.unobserved > 0 ==> k == 500 && Steady(p, k, 100))
  {
    SteadyIsRepeats(p, k, STABLE_POLLS);
    if LossAccepted(p, k) {
      SteadyIsRepeats(p, k, 100);
    }
  }

  /** How the wait ends, as its contract says it. */
  ghost predicate Ended(p: Polls, last: nat, result: Drain) {
    && last * DRAIN_POLL_MS <= DRAIN_TIMEOUT_MS && Decided(p, last, result)
    && forall j: nat | j < last :: !Fails(p, j) && !AllObserved(p, j)
  }

  /** Eleven polls in a row, the last no earlier than the grace time, saw the same two numbers
      and these were equal. */
  ghost predicate QuietAt(p: Polls, k: nat) {
    10 <= k <= 500 && Requested(p, k) == Terminal(p, k) && Steady(p, k, 10)
  }

  lemma QuietIsObserved(p: Polls, k: nat)
    requires k <= 500
    ensures QuietAt(p, k) <==> AllObserved(p, k)
  {
    if k >= 10 {
      SteadyIsRepeats(p, k, 10);
    }
  }

  /** When the wait succeeds with everything observed, exactly: at the first quiet poll, if no
      lookup has failed up to then.  No packets at all is quiet, too. */
  lemma SucceedsExactly(p: Polls, last: nat, result: Drain)
    requires Ended(p, last, result)
    ensures result.Drained? && result.report.unobserved == 0 <==>
              exists k: nat :: QuietAt(p, k) && forall j: nat | j <= k :: !Fails(p, j)
    ensures forall k: nat | QuietAt(p, k) && (forall j: nat | j <= k :: !Fails(p, j)) :: last <= k
  {
    QuietIsObserved(p, last);
    if result.Drained? && result.report.unobserved == 0 {
      assert QuietAt(p, last) && forall j: nat | j <= last :: !Fails(p, j);
    }
    forall k: nat | QuietAt(p, k) && (forall j: nat | j <= k :: !Fails(p, j))
      ensures last <= k && result.Drained? && result.report.unobserved == 0
    {
      QuietIsObserved(p, k);
    }
  }

  /** When it accepts a loss, exactly: no lookup failed, no poll was quiet, and the last 101 of
      the 501 polls saw the same two numbers, requests ahead. */
  lemma LossExactly(p: Polls, last: nat, result: Drain)
    requires Ended(p, last, result)
    ensures result.Drained? && result.report.unobserved > 0 <==>
              && (forall j: nat | j <= 500 :: !Fails(p, j) && !QuietAt(p, j))
              && Requested(p, 500) > Terminal(p, 500) && Steady(p, 500, 100)
  {
    SteadyIsRepeats(p, 500, 100);
    QuietIsObserved(p, last);
    forall j: nat | j <= 500
      ensures QuietAt(p, j) <==> AllObserved(p, j)
    {
      QuietIsObserved(p, j);
    }
  }

  /** If the world is at rest, all successful polls saw it exactly. */
  ghost predicate SeesRest(world: nat -> Moment, rest: nat, h: seq<Reading>) {
    StillFrom(world, rest) ==>
      forall k: nat | k < |h| && h[k].ok :: h[k] == Reading(true, Total(world(rest).cpus, OfRequested), Outcomes(world(rest)))
  }

  /** The wait reported the instant `m` as it is. */
  predicate Reported(m: Moment, result: Drain) {
    m.open >= 0 && result == Drained(Report(Total(m.cpus, OfRequested), Outcomes(m), m.open))
  }

  lemma SeesMore(world: nat -> Moment, ncpu: nat, rest: nat, begin: nat, pivot: nat, end: nat, h: seq<Reading>, r: Reading)
    requires Lawful(world, ncpu) && rest <= begin <= pivot <= end && SeesRest(world, rest, h)
    requires r.ok ==> Conservative(world(pivot), r.requested, r.terminal) && UpToDate(world(begin), world(end), r.requested, r.terminal)
    ensures SeesRest(world, rest, h + [r])
  {
    if StillFrom(world, rest) && r.ok {
      RestIsSeen(world, ncpu, rest, begin, pivot, end, r.requested, r.terminal);
      assert Law(world(rest), ncpu);
    }
  }

  /** A poll succeeds exactly if none of its lookups fails. */
  ghost predicate Answers(broken: (nat, Which) -> bool, h: seq<Reading>) {
    forall k: nat | k < |h| :: h[k].ok <==> AllAnswer(broken, k)
  }

  lemma AnswersMore(broken: (nat, Which) -> bool, h: seq<Reading>, r: Reading)
    requires Answers(broken, h) && (r.ok <==> AllAnswer(broken, |h|))
    ensures Answers(broken, h + [r])
  {
  }

  /** A report never hides what was open at `pivot`, and is exact for a world at rest. */
  ghost predicate Truthful(world: nat -> Moment, start: nat, pivot: nat, result: Drain) {
    && (result.Drained? ==> world(pivot).open <= result.report.unobserved)
    && (StillFrom(world, start) && result != LookupFailed ==> Reported(world(start), result))
  }

  lemma EndIsTruthful(world: nat -> Moment, ncpu: nat, start: nat, pivot: nat, h: seq<Reading>, result: Drain)
    requires Lawful(world, ncpu) && h != [] && Ended(PollsOf(h), |h| - 1, result) && h[|h| - 1].ok && SeesRest(world, start, h)
    requires Conservative(world(pivot), h[|h| - 1].requested, h[|h| - 1].terminal)
    ensures Truthful(world, start, pivot, result)
  {
    EndAtRest(world, ncpu, start, h, result);
  }

  /** A wait whose polls all see a world at rest ends by reporting it. */
  lemma EndAtRest(world: nat -> Moment, ncpu: nat, rest: nat, h: seq<Reading>, result: Drain)
    requires Lawful(world, ncpu) && h != [] && Ended(PollsOf(h), |h| - 1, result) && result != LookupFailed
    requires SeesRest(world, rest, h)
    ensures StillFrom(world, rest) ==> Reported(world(rest), result)
  {
    if StillFrom(world, rest) {
      var p, last := PollsOf(h), |h| - 1;
      assert Law(world(rest), ncpu);
      forall j: nat | j < |h|
        ensures h[j].ok
      {
        assert !Fails(p, j);
      }
      assert forall j: nat | j < |h| :: Requested(p, j) == Total(world(rest).cpus, OfRequested) && Terminal(p, j) == Outcomes(world(rest));
      assert forall n: nat :: n <= last ==> Steady(p, last, n);
      if world(rest).open == 0 {
        if result == TimedOut { QuietIsObserved(p, last); }
      } else {
        LossExactly(p, last, result);
      }
    }
  }

  // ----- the moving world is a trace of the two XDP programs

  function Stat(b: Books, which: Which): int {
    match which
    case OfRecorded => b.stats.cpumapRecorded
    case OfDuplicate => b.stats.cpumapDuplicate
    case OfUpdateError => b.stats.cpumapUpdateError
    case OfInvalid => b.stats.cpumapMetaInvalid
    case OfRequested => b.stats.cpumap
  }

  ghost predicate IsTrace(trace: seq<Books>, events: seq<Event>, mode: Mode, capacity: nat) {
    && |trace| == |events| + 1 && BooksOk(trace[0], mode, capacity)
    && forall n | 0 <= n < |events| :: StepOf(trace[n], trace[n + 1], events[n], mode, capacity)
  }

  /** Whatever an event counts is counted on CPU w. */
  ghost predicate CountedOn(b: Books, c: Books, before: seq<PerCpu>, after: seq<PerCpu>, w: nat) {
    && |before| == |after| && w < |before|
    && (forall i | 0 <= i < |before| && i != w :: after[i] == before[i])
    && forall which :: Part(after[w], which) - Part(before[w], which) == Stat(c, which) - Stat(b, which)
  }

  /** `spread[n]` is how the counters of `trace[n]` are spread over the CPUs. */
  ghost predicate SpreadOver(trace: seq<Books>, spread: seq<seq<PerCpu>>, where: seq<nat>, ncpu: nat) {
    && |trace| == |spread| == |where| + 1
    && (forall n | 0 <= n < |spread| :: |spread[n]| == ncpu)
    && (forall which :: Total(spread[0], which) == Stat(trace[0], which))
    && forall n | 0 <= n < |where| :: CountedOn(trace[n], trace[n + 1], spread[n], spread[n + 1], where[n])
  }

  function MomentOf(b: Books, cpus: seq<PerCpu>): Moment {
    Moment(cpus, Open(b), |b.measured|)
  }

  /** The world that runs through the trace and then stands still. */
  function WorldOf(trace: seq<Books>, spread: seq<seq<PerCpu>>): (world: nat -> Moment)
    requires |trace| == |spread| > 0
  {
    (t: nat) => if t < |trace| then MomentOf(trace[t], spread[t]) else MomentOf(trace[|trace| - 1], spread[|trace| - 1])
  }

  lemma StatsGrow(b: Books, c: Books, e: Event, mode: Mode, capacity: nat, which: Which)
    requires StepOf(b, c, e, mode, capacity)
    ensures Stat(b, which) <= Stat(c, which)
    ensures !e.Arrives? ==> Stat(c, OfRequested) == Stat(b, OfRequested)
  {
  }

  lemma {:induction false} TotalMoves(a: seq<PerCpu>, b: seq<PerCpu>, w: nat, which: Which)
    requires |a| == |b| && w < |a| && forall i | 0 <= i < |a| && i != w :: b[i] == a[i]
    ensures Total(b, which) - Total(a, which) == Part(b[w], which) - Part(a[w], which)
    decreases |a|
  {
    var a', b' := a[..|a| - 1], b[..|b| - 1];
    if w == |a| - 1 {
      assert a' == b';
    } else {
      TotalMoves(a', b', w, which);
    }
  }

  lemma {:induction false} SpreadAddsUp(trace: seq<Books>, spread: seq<seq<PerCpu>>, where: seq<nat>, ncpu: nat, n: nat, which: Which)
    requires SpreadOver(trace, spread, where, ncpu) && n < |trace|
    ensures Total(spread[n], which) == Stat(trace[n], which)
    decreases n
  {
    if n > 0 {
      SpreadAddsUp(trace, spread, where, ncpu, n - 1, which);
      assert CountedOn(trace[n - 1], trace[n], spread[n - 1], spread[n], where[n - 1]);
      TotalMoves(spread[n - 1], spread[n], where[n - 1], which);
    }
  }

  lemma {:induction false} BooksAt(trace: seq<Books>, events: seq<Event>, mode: Mode, capacity: nat, n: nat)
    requires IsTrace(trace, events, mode, capacity) && n < |trace|
    ensures BooksOk(trace[n], mode, capacity)
    decreases n
  {
    if n > 0 {
      BooksAt(trace, events, mode, capacity, n - 1);
      EventKeepsBooks(trace[n - 1], trace[n], events[n - 1], mode, capacity);
    }
  }

  /** One CPU's share after it counted what happened between two books. */
  function Counted(p: PerCpu, b: Books, c: Books): PerCpu
    requires forall which :: Stat(b, which) <= Stat(c, which)
  {
    PerCpu(p.recorded + (Stat(c, OfRecorded) - Stat(b, OfRecorded)), p.duplicate + (Stat(c, OfDuplicate) - Stat(b, OfDuplicate)),
           p.updateError + (Stat(c, OfUpdateError) - Stat(b, OfUpdateError)), p.invalid + (Stat(c, OfInvalid) - Stat(b, OfInvalid)),
           p.requested + (Stat(c, OfRequested) - Stat(b, OfRequested)))
  }

  lemma CountedIsCounted(b: Books, c: Books, before: seq<PerCpu>, w: nat)
    requires w < |before| && forall which :: Stat(b, which) <= Stat(c, which)
    ensures CountedOn(b, c, before, before[w := Counted(before[w], b, c)], w)
  {
    forall which: Which
      ensures Part(Counted(before[w], b, c), which) - Part(before[w], which) == Stat(c, which) - Stat(b, which)
    {
      match which
      case OfRecorded =>
      case OfDuplicate =>
      case OfUpdateError =>
      case OfInvalid =>
      case OfRequested =>
    }
  }

  /** However the events of a trace are dealt out to the CPUs, there are counters that keep the
      account: whatever is said of spread traces is said of every trace. */
  lemma {:induction false} EveryTraceSpreads(trace: seq<Books>, events: seq<Event>, where: seq<nat>, mode: Mode, capacity: nat,
                                             ncpu: nat, first: seq<PerCpu>)
    returns (spread: seq<seq<PerCpu>>)
    requires IsTrace(trace, events, mode, capacity) && |where| == |events| && forall n | 0 <= n < |where| :: where[n] < ncpu
    requires |first| == ncpu && forall which :: Total(first, which) == Stat(trace[0], which)
    ensures SpreadOver(trace, spread, where, ncpu) && spread[0] == first
    decreases |events|
  {
    if events == [] {
      spread := [first];
    } else {
      var n := |events| - 1;
      var shorter := EveryTraceSpreads(trace[..n + 1], events[..n], where[..n], mode, capacity, ncpu, first);
      forall which
        ensures Stat(trace[n], which) <= Stat(trace[n + 1], which)
      {
        StatsGrow(trace[n], trace[n + 1], events[n], mode, capacity, which);
      }
      var last, w := shorter[n], where[n];
      CountedIsCounted(trace[n], trace[n + 1], last, w);
      spread := shorter + [last[w := Counted(last[w], trace[n], trace[n + 1])]];
      forall i | 0 <= i < |where|
        ensures CountedOn(trace[i], trace[i + 1], spread[i], spread[i + 1], where[i])
      {
        if i < n {
          assert CountedOn(trace[..n + 1][i], trace[..n + 1][i + 1], shorter[i], shorter[i + 1], where[..n][i]);
        }
      }
    }
  }

  lemma LawAt(trace: seq<Books>, events: seq<Event>, spread: seq<seq<PerCpu>>, where: seq<nat>,
              mode: Mode, capacity: nat, ncpu: nat, n: nat)
    requires IsTrace(trace, events, mode, capacity) && SpreadOver(trace, spread, where, ncpu) && n < |trace|
    ensures Law(MomentOf(trace[n], spread[n]), ncpu)
  {
    BooksAt(trace, events, mode, capacity, n);
    SpreadAddsUp(trace, spread, where, ncpu, n, OfRecorded);
    SpreadAddsUp(trace, spread, where, ncpu, n, OfDuplicate);
    SpreadAddsUp(trace, spread, where, ncpu, n, OfUpdateError);
    SpreadAddsUp(trace, spread, where, ncpu, n, OfInvalid);
    SpreadAddsUp(trace, spread, where, ncpu, n, OfRequested);
    BooksObeyLaw(trace[n], mode, capacity, spread[n]);
  }

  lemma {:induction false} PartsGrow(trace: seq<Books>, events: seq<Event>, spread: seq<seq<PerCpu>>, where: seq<nat>,
                                     mode: Mode, capacity: nat, ncpu: nat, m: nat, n: nat, c: nat, which: Which)
    requires IsTrace(trace, events, mode, capacity) && SpreadOver(trace, spread, where, ncpu)
    requires m <= n < |trace| && c < ncpu
    ensures Part(spread[m][c], which) <= Part(spread[n][c], which)
    decreases n
  {
    if m < n {
      PartsGrow(trace, events, spread, where, mode, capacity, ncpu, m, n - 1, c, which);
      StatsGrow(trace[n - 1], trace[n], events[n - 1], mode, capacity, which);
      assert CountedOn(trace[n - 1], trace[n], spread[n - 1], spread[n], where[n - 1]);
    }
  }

  /** Every trace of the two programs, on any number of CPUs, obeys the law at every instant
      and never takes a counter back. */
  lemma TraceIsLawful(trace: seq<Books>, events: seq<Event>, spread: seq<seq<PerCpu>>, where: seq<nat>,
                      mode: Mode, capacity: nat, ncpu: nat)
    requires IsTrace(trace, events, mode, capacity) && SpreadOver(trace, spread, where, ncpu)
    ensures Lawful(WorldOf(trace, spread), ncpu)
  {
    var world := WorldOf(trace, spread);
    var last := |trace| - 1;
    forall t: nat
      ensures Law(world(t), ncpu)
    {
      LawAt(trace, events, spread, where, mode, capacity, ncpu, if t < |trace| then t else last);
    }
    assert forall t: nat :: |world(t).cpus| == ncpu by {
      forall t: nat
        ensures |world(t).cpus| == ncpu
      {
        assert Law(world(t), ncpu);
      }
    }
    forall t: nat, u: nat, c, which | t <= u && 0 <= c < ncpu
      ensures Part(world(t).cpus[c], which) <= Part(world(u).cpus[c], which)
    {
      PartsGrow(trace, events, spread, where, mode, capacity, ncpu,
                if t < |trace| then t else last, if u < |trace| then u else last, c, which);
    }
  }

  /** From position d on no frame reaches the classifier any more. */
  ghost predicate NoArrivalsFrom(events: seq<Event>, d: nat) {
    forall n | d <= n < |events| :: !events[n].Arrives?
  }

  lemma {:induction false} RequestsStop(trace: seq<Books>, events: seq<Event>, mode: Mode, capacity: nat, d: nat, n: nat)
    requires IsTrace(trace, events, mode, capacity) && NoArrivalsFrom(events, d) && d <= n < |trace|
    ensures Stat(trace[n], OfRequested) == Stat(trace[d], OfRequested)
    decreases n
  {
    if d < n {
      RequestsStop(trace, events, mode, capacity, d, n - 1);
      StatsGrow(trace[n - 1], trace[n], events[n - 1], mode, capacity, OfRequested);
    }
  }

  lemma DetachStopsRequests(trace: seq<Books>, events: seq<Event>, spread: seq<seq<PerCpu>>, where: seq<nat>,
                            mode: Mode, capacity: nat, ncpu: nat, d: nat)
    requires IsTrace(trace, events, mode, capacity) && SpreadOver(trace, spread, where, ncpu)
    requires d < |trace| && NoArrivalsFrom(events, d)
    ensures DetachedAt(WorldOf(trace, spread), d)
  {
    var world := WorldOf(trace, spread);
    forall t: nat | d <= t
      ensures Total(world(t).cpus, OfRequested) == Total(world(d).cpus, OfRequested)
    {
      var n := if t < |trace| then t else |trace| - 1;
      RequestsStop(trace, events, mode, capacity, d, n);
      SpreadAddsUp(trace, spread, where, ncpu, n, OfRequested);
      SpreadAddsUp(trace, spread, where, ncpu, d, OfRequested);
    }
  }

  lemma {:induction false} SubsetOfEqualSize<T>(a: set<T>, b: set<T>)
    requires a <= b && |a| == |b|
    ensures a == b
    decreases |a|
  {
    if a != {} {
      var x :| x in a;
      SubsetOfEqualSize(a - {x}, b - {x});
      assert a == a - {x} + {x} && b == b - {x} + {x};
    }
  }

  lemma SameSizeExtension(b: Books, c: Books)
    requires Extends(b, c) && |b.measured| == |c.measured|
    ensures b.measured == c.measured
  {
    assert b.measured.Keys <= c.measured.Keys;
    SubsetOfEqualSize(b.measured.Keys, c.measured.Keys);
  }

  lemma NothingUnderWay(trace: seq<Books>, events: seq<Event>, spread: seq<seq<PerCpu>>, where: seq<nat>,
                        mode: Mode, capacity: nat, ncpu: nat, pivot: nat, detached: nat, later: nat)
    requires IsTrace(trace, events, mode, capacity) && SpreadOver(trace, spread, where, ncpu)
    requires NoArrivalsFrom(events, detached) && detached <= pivot <= later < |trace| && WorldOf(trace, spread)(pivot).open == 0
    ensures Open(trace[later]) == 0 && |trace[later].measured| == |trace[pivot].measured|
  {
    TraceIsLawful(trace, events, spread, where, mode, capacity, ncpu);
    DetachStopsRequests(trace, events, spread, where, mode, capacity, ncpu, detached);
    DrainedStaysDrained(WorldOf(trace, spread), ncpu, pivot, later);
  }

  lemma ExtendsOn(a: Books, b: Books, c: Books)
    requires Extends(a, b) && Extends(b, c)
    ensures Extends(a, c)
  {
  }

  lemma StepExtends(trace: seq<Books>, events: seq<Event>, mode: Mode, capacity: nat, n: nat)
    requires IsTrace(trace, events, mode, capacity) && n < |events|
    ensures Extends(trace[n], trace[n + 1])
  {
    BooksAt(trace, events, mode, capacity, n);
    EventKeepsBooks(trace[n], trace[n + 1], events[n], mode, capacity);
  }

  lemma {:induction false} ChainExtends(trace: seq<Books>, m: nat, n: nat)
    requires m <= n < |trace| && forall i | 0 <= i < |trace| - 1 :: Extends(trace[i], trace[i + 1])
    ensures Extends(trace[m], trace[n])
    decreases n
  {
    if m < n {
      ChainExtends(trace, m, n - 1);
      ExtendsOn(trace[m], trace[n - 1], trace[n]);
    }
  }

  lemma RecordsKept(trace: seq<Books>, events: seq<Event>, mode: Mode, capacity: nat, m: nat, n: nat)
    requires IsTrace(trace, events, mode, capacity) && m <= n < |trace|
    ensures Extends(trace[m], trace[n])
  {
    forall i | 0 <= i < |trace| - 1
      ensures Extends(trace[i], trace[i + 1])
    {
      StepExtends(trace, events, mode, capacity, i);
    }
    ChainExtends(trace, m, n);
  }

  lemma NothingOpen(b: Books, mode: Mode, capacity: nat)
    requires BooksOk(b, mode, capacity) && Open(b) == 0
    ensures b.inflight == [] && b.waiting == Waiting(0, 0, 0) && b.lost == 0
  {
  }

  /** Once nothing is open and no frame is classified any more, no redirected packet is under
      way or lost, no insert is still to be counted, and the record map does not change. */
  lemma NothingOpenStaysSo(trace: seq<Books>, events: seq<Event>, spread: seq<seq<PerCpu>>, where: seq<nat>,
                           mode: Mode, capacity: nat, ncpu: nat, pivot: nat, detached: nat, later: nat)
    requires IsTrace(trace, events, mode, capacity) && SpreadOver(trace, spread, where, ncpu)
    requires NoArrivalsFrom(events, detached) && detached <= pivot <= later < |trace| && WorldOf(trace, spread)(pivot).open == 0
    ensures trace[later].inflight == [] && trace[later].waiting == Waiting(0, 0, 0) && trace[later].lost == 0
    ensures trace[later].measured == trace[pivot].measured
  {
    NothingUnderWay(trace, events, spread, where, mode, capacity, ncpu, pivot, detached, later);
    BooksAt(trace, events, mode, capacity, later);
    NothingOpen(trace[later], mode, capacity);
    RecordsKept(trace, events, mode, capacity, pivot, later);
    SameSizeExtension(trace[pivot], trace[later]);
  }

  lemma SettledIsReported(trace: seq<Books>, events: seq<Event>, spread: seq<seq<PerCpu>>, where: seq<nat>, mode: Mode, capacity: nat,
                          ncpu: nat, broken: (nat, Which) -> bool, detached: nat, h: seq<Reading>, result: Drain)
    requires IsTrace(trace, events, mode, capacity) && SpreadOver(trace, spread, where, ncpu)
    requires NoArrivalsFrom(events, detached) && detached < |trace| && Open(trace[detached]) == 0
    requires h != [] && Ended(PollsOf(h), |h| - 1, result) && Answers(broken, h)
    requires StillFrom(WorldOf(trace, spread), detached) && result != LookupFailed ==> Reported(WorldOf(trace, spread)(detached), result)
    ensures (forall k, which :: !broken(k, which)) ==>
              && result.Drained? && result.report.unobserved == 0
              && result.report.requested == result.report.terminal == Stat(trace[detached], OfRequested)
  {
    var world := WorldOf(trace, spread);
    TraceIsLawful(trace, events, spread, where, mode, capacity, ncpu);
    DetachStopsRequests(trace, events, spread, where, mode, capacity, ncpu, detached);
    assert world(detached) == MomentOf(trace[detached], spread[detached]);
    DrainedIsStill(world, ncpu, detached);
    SpreadAddsUp(trace, spread, where, ncpu, detached, OfRequested);
    assert Law(world(detached), ncpu);
    if forall k, which :: !broken(k, which) {
      assert AllAnswer(broken, |h| - 1) && h[|h| - 1].ok;
      assert !Fails(PollsOf(h), |h| - 1);
    }
  }

  /** The whole story, for every trace of frames, arrivals and losses, on any number of CPUs
      and with any time passing between two readings: a wait that starts when no frame is
      classified any more and reports nothing unobserved leaves a record map that is complete
      and final, so its export is.  And a wait that starts with nothing open, all lookups
      answering, succeeds with exactly the number of requests. */
  method ExportIsComplete(trace: seq<Books>, events: seq<Event>, spread: seq<seq<PerCpu>>, where: seq<nat>,
                          mode: Mode, capacity: nat, ncpu: nat, pause: nat -> nat, broken: (nat, Which) -> bool, detached: nat)
    returns (result: Drain, later: nat)
    requires IsTrace(trace, events, mode, capacity) && SpreadOver(trace, spread, where, ncpu)
    requires NoArrivalsFrom(events, detached) && detached < |trace|
    ensures result.Drained? && result.report.unobserved == 0 && later < |trace| ==>
              && trace[later].inflight == [] && trace[later].waiting == Waiting(0, 0, 0) && trace[later].lost == 0
              && forall end | later <= end < |trace| :: trace[end].measured == trace[later].measured
    ensures Open(trace[detached]) == 0 && (forall k, which :: !broken(k, which)) ==>
              && result.Drained? && result.report.unobserved == 0
              && result.report.requested == result.report.terminal == Stat(trace[detached], OfRequested)
  {
    TraceIsLawful(trace, events, spread, where, mode, capacity, ncpu);
    var waiter := new Waiter(WorldOf(trace, spread), ncpu, pause, broken, detached);
    ghost var h, pivot;
    result, h, pivot := waiter.WaitForCpumapRecords();
    later := waiter.now;
    if Open(trace[detached]) == 0 {
      SettledIsReported(trace, events, spread, where, mode, capacity, ncpu, broken, detached, h, result);
    }
    if result.Drained? && result.report.unobserved == 0 && later < |trace| {
      assert Law(WorldOf(trace, spread)(pivot), ncpu);
      NothingOpenStaysSo(trace, events, spread, where, mode, capacity, ncpu, pivot, detached, later);
      forall end | later <= end < |trace|
        ensures trace[end].measured == trace[later].measured
      {
        NothingOpenStaysSo(trace, events, spread, where, mode, capacity, ncpu, pivot, detached, end);
      }
    }
  }
}
