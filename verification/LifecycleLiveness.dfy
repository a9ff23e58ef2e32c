/** A recovery left alone finishes: from every crash point whose claimants are dead, however
    its steps are chosen. */
module LifecycleLiveness {
  import opened Hwtstamp
  import opened Lifecycle
  import R = LifecycleRecovery

  /** A step of recovery p in which nothing fails and the driver adopts what it saved. */
  predicate Lone(p: Pid, a: Action, o: Config) {
    match a
    case RecoveryScans(q, c) => q == p && !c.ScanError?
    case RecoveryDo(q, step) => q == p && Succeeds(step, o)
    case _ => false
  }

  predicate Succeeds(step: RecoveryStep, o: Config) {
    match step
    case QRestoreRefused(_) => false
    case QRestoreDone(c) => c == o
    case QPublishFailed => false
    case QClean(unpin) => unpin
    case QExit => false
    case _ => true
  }

  // ----- what such a recovery keeps

  predicate ScanSane(owners: map<Queue, Pid>, scan: Scan) {
    match scan
    case AtTop => true
    case HaveKey(k) => k in owners
    case HaveOwner(k, owner) => k in owners && owners[k] == owner
    case Deleting(k) => k in owners
    case Clear => true
    case _ => false
  }

  predicate PhaseOk(s: State, q: Recovery) {
    && !q.stateError
    && match q.pc
       case QSweeping(scan) => ScanSane(s.owners, scan) && q.copy.stopping
       case QRestoring => !s.w.xdp && q.copy.stopping
       case QPublishing => !s.w.xdp && SaysRestored(q.copy)
       case QDraining => !s.w.xdp && SaysRestored(s.w.rt)
       case QCleaning => !s.w.xdp && s.w.exported && SaysRestored(s.w.rt)
       case QFinished => Recovered(s.w) && SaysRestored(s.w.rt)
       case _ => true
  }

  /** A record that says: nothing of ours is on the device, and nobody is to start. */
  predicate SaysRestored(rt: Runtime) {
    rt.effective == rt.saved && !rt.applying && !rt.applied && rt.stopping
  }

  /** XDP is detached, the records are out and the pins are gone. */
  predicate Recovered(w: World) {
    !w.xdp && w.exported && !w.pins
  }

  ghost predicate ClaimantsDead(s: State) {
    forall k | k in s.owners :: !Alive(s, s.owners[k])
  }

  ghost predicate LoneOk(s: State, p: Pid, o: Config) {
    && p in s.recoveries && s.w.loader.pc == Done
    && ClaimantsDead(s) && R.Conf(s, o) && PhaseOk(s, s.recoveries[p])
  }

  // ----- how much is left to do

  function ScanLeft(claims: nat, scan: Scan): int {
    match scan
    case AtTop => 4 * claims + 1
    case HaveKey(_) => 4 * claims
    case HaveOwner(_, _) => 4 * claims - 1
    case Deleting(_) => 4 * claims - 2
    case _ => 0
  }

  function Left(claims: nat, pc: RecoveryPc): int {
    match pc
    case QReading => 4 * claims + 9
    case QHasCopy => 4 * claims + 8
    case QChecked => 4 * claims + 7
    case QSweeping(scan) => 5 + ScanLeft(claims, scan)
    case QRestoring => 4
    case QPublishing => 3
    case QDraining => 2
    case QCleaning => 1
    case QFinished => 0
  }

  function Measure(s: State, p: Pid): int
    requires p in s.recoveries
  {
    Left(|s.owners|, s.recoveries[p].pc)
  }

  lemma ScanFalls(s: State, p: Pid, c: ScanStep, s': State)
    requires p in s.recoveries && PhaseOk(s, s.recoveries[p]) && ClaimantsDead(s) && !c.ScanError?
    requires Enabled(s, RecoveryScans(p, c)) && s' == Next(s, RecoveryScans(p, c))
    ensures s'.recoveries.Keys == s.recoveries.Keys && s'.w == s.w && s'.receivers == s.receivers
    ensures PhaseOk(s', s'.recoveries[p]) && ClaimantsDead(s') && 0 <= Measure(s', p) < Measure(s, p)
  {
    var scan := s.recoveries[p].pc.scan;
    if scan.HaveKey? || scan.HaveOwner? || scan.Deleting? {
      assert (s.owners - {scan.key}).Keys == s.owners.Keys - {scan.key};
    }
  }

  lemma DoFalls(s: State, p: Pid, q: RecoveryStep, s': State, o: Config)
    requires p in s.recoveries && PhaseOk(s, s.recoveries[p]) && ClaimantsDead(s) && Succeeds(q, o)
    requires Enabled(s, RecoveryDo(p, q)) && s' == Next(s, RecoveryDo(p, q))
    ensures s'.recoveries.Keys == s.recoveries.Keys && s'.w.loader == s.w.loader && s'.owners == s.owners && s'.receivers == s.receivers
    ensures PhaseOk(s', s'.recoveries[p]) && 0 <= Measure(s', p) < Measure(s, p)
  {
  }

  /** Every such step keeps all that and brings the recovery closer to its end. */
  lemma LoneStepFalls(s: State, p: Pid, o: Config, a: Action, s': State)
    requires LoneOk(s, p, o) && Lone(p, a, o) && Enabled(s, a) && s' == Next(s, a)
    ensures LoneOk(s', p, o) && 0 <= Measure(s', p) < Measure(s, p)
  {
    R.StepKeepsConf(s, o, a, s');
    if a.RecoveryScans? {
      ScanFalls(s, p, a.c, s');
    } else {
      DoFalls(s, p, a.q, s', o);
    }
  }

  /** The next step of the scan. */
  lemma ScanGoesOn(s: State, scan: Scan) returns (c: ScanStep)
    requires ScanSane(s.owners, scan) && ClaimantsDead(s) && scan != Clear
    ensures !c.ScanError? && ScanEnabled(s, scan, c)
  {
    match scan
    case AtTop =>
      if s.owners == map[] {
        c := NoKeys;
      } else {
        assert s.owners.Keys != {};
        var k :| k in s.owners;
        c := Pick(k);
      }
    case HaveKey(_) => c := Found;
    case HaveOwner(_, _) => c := JudgeDead;
    case Deleting(_) => c := Delete;
  }

  /** A recovery that is not finished has such a step. */
  lemma NeverStuck(s: State, p: Pid, o: Config) returns (a: Action)
    requires LoneOk(s, p, o) && s.recoveries[p].pc != QFinished
    ensures Lone(p, a, o) && Enabled(s, a)
  {
    var q := s.recoveries[p];
    assert R.RecoveryConf(s.w, o, q);
    match q.pc
    case QReading => a := RecoveryDo(p, QRead);
    case QHasCopy => a := RecoveryDo(p, QCheckDead);
    case QChecked => a := RecoveryDo(p, QPublishStopping);
    case QSweeping(scan) =>
      if scan == Clear {
        a := RecoveryDo(p, QDetach);
      } else {
        var c := ScanGoesOn(s, scan);
        a := RecoveryScans(p, c);
      }
    case QRestoring => a := RecoveryDo(p, QRestoreDone(o));
    case QPublishing => a := RecoveryDo(p, QPublish);
    case QDraining => a := RecoveryDo(p, QExport);
    case QCleaning => a := RecoveryDo(p, QClean(true));
  }

  lemma {:induction false} LoneRunIsShort(s: State, p: Pid, o: Config, run: seq<Action>)
    requires LoneOk(s, p, o) && IsRun(s, run) && forall a | a in run :: Lone(p, a, o)
    ensures LoneOk(Final(s, run), p, o) && |run| + Measure(Final(s, run), p) <= Measure(s, p)
    decreases |run|
  {
    if run != [] {
      var s' := Next(s, run[0]);
      LoneStepFalls(s, p, o, run[0], s');
      LoneRunIsShort(s', p, o, run[1..]);
    }
  }

  // ----- the theorems

  /** A crash point: a clean run has left pinned maps, a dead loader and dead claimants. */
  ghost predicate CrashPoint(o: Config, before: seq<Action>, s: State) {
    && IsRun(Init(o), before) && R.CleanRun(Init(o), o, before) && s == Final(Init(o), before)
    && s.w.pins && s.w.loader.pc == Done && ClaimantsDead(s)
  }

  lemma StartsLone(o: Config, before: seq<Action>, s: State, p: Pid)
    requires CrashPoint(o, before, s) && Enabled(s, SpawnRecovery(p))
    ensures LoneOk(Next(s, SpawnRecovery(p)), p, o) && Measure(Next(s, SpawnRecovery(p)), p) == 4 * |s.owners| + 9
  {
    R.CleanRunKeepsConf(Init(o), o, before);
    R.StepKeepsConf(s, o, SpawnRecovery(p), Next(s, SpawnRecovery(p)));
  }

  /** Every schedule of a lone recovery is finite, with at most four steps per claim and nine
      more; it can only end where the recovery has finished, and then the device is restored and
      the record says so, XDP is detached, the records are exported and the pins are gone. */
  lemma EveryRecoveryFinishes(o: Config, before: seq<Action>, s: State, p: Pid, run: seq<Action>)
    requires CrashPoint(o, before, s) && Enabled(s, SpawnRecovery(p))
    requires IsRun(Next(s, SpawnRecovery(p)), run) && forall a | a in run :: Lone(p, a, o)
    ensures |run| <= 4 * |s.owners| + 9
    ensures var t := Final(Next(s, SpawnRecovery(p)), run);
            && p in t.recoveries
            && ((forall a | Lone(p, a, o) :: !Enabled(t, a)) <==> t.recoveries[p].pc == QFinished)
            && (t.recoveries[p].pc == QFinished ==> t.w.device == o && Recovered(t.w) && SaysRestored(t.w.rt))
  {
    var s' := Next(s, SpawnRecovery(p));
    StartsLone(o, before, s, p);
    LoneRunIsShort(s', p, o, run);
    var t := Final(s', run);
    LeftIsNatural(t, p);
    if t.recoveries[p].pc == QFinished {
      FinishedIsFinal(t, p, o);
    } else {
      var a := NeverStuck(t, p, o);
    }
  }

  lemma FinishedIsFinal(t: State, p: Pid, o: Config)
    requires LoneOk(t, p, o) && t.recoveries[p].pc == QFinished
    ensures t.w.device == o && Recovered(t.w) && SaysRestored(t.w.rt) && forall a | Lone(p, a, o) :: !Enabled(t, a)
  {
  }

  lemma LeftIsNatural(s: State, p: Pid)
    requires p in s.recoveries && PhaseOk(s, s.recoveries[p])
    ensures Measure(s, p) >= 0
  {
    var pc := s.recoveries[p].pc;
    if pc.QSweeping? && (pc.scan.HaveOwner? || pc.scan.Deleting?) {
      assert pc.scan.key in s.owners.Keys;
    }
  }

  lemma {:induction false} FinishLone(s: State, p: Pid, o: Config) returns (run: seq<Action>)
    requires LoneOk(s, p, o)
    ensures IsRun(s, run) && (forall a | a in run :: Lone(p, a, o))
    ensures var t := Final(s, run); p in t.recoveries && t.recoveries[p].pc == QFinished
    decreases Measure(s, p)
  {
    if s.recoveries[p].pc == QFinished {
      run := [];
    } else {
      var a := NeverStuck(s, p, o);
      LeftIsNatural(s, p);
      LoneStepFalls(s, p, o, a, Next(s, a));
      var rest := FinishLone(Next(s, a), p, o);
      run := [a] + rest;
      assert run[1..] == rest;
    }
  }

  /** From every crash point there is a process that can recover, and a schedule that does. */
  lemma RecoveryFinishes(o: Config, before: seq<Action>, s: State) returns (p: Pid, run: seq<Action>)
    requires CrashPoint(o, before, s)
    ensures Enabled(s, SpawnRecovery(p)) && IsRun(Next(s, SpawnRecovery(p)), run) && (forall a | a in run :: Lone(p, a, o))
    ensures var t := Final(Next(s, SpawnRecovery(p)), run); t.w.device == o && Recovered(t.w)
  {
    p := R.FreshPid(s);
    StartsLone(o, before, s, p);
    run := FinishLone(Next(s, SpawnRecovery(p)), p, o);
    EveryRecoveryFinishes(o, before, s, p, run);
  }
}
