/** No process of the lifecycle goes in circles, whatever the others do, and the record it
    leaves for others is never one they would refuse. */
module LifecycleBounds {
  import opened Hwtstamp
  import opened Lifecycle

  // ----- every step of one's own leads on

  datatype Actor = TheLoader | TheReceiver(p: Pid) | TheRecovery(p: Pid)

  /** Whose step an action is; the turns of a claim scan are nobody's. */
  predicate By(a: Action, who: Actor) {
    match a
    case LoaderDo(_) => who == TheLoader
    case ReceiverDo(p, _) => who == TheReceiver(p)
    case RecoveryDo(p, _) => who == TheRecovery(p)
    case _ => false
  }

  function LoaderRank(pc: LoaderPc): nat {
    match pc
    case Starting => 14
    case Captured => 13
    case Pinned => 12
    case Attached => 11
    case Refreshed => 10
    case Verified => 10
    case ApplyPublished => 9
    case RollingBack => 8
    case DeviceSet => 8
    case Ready => 7
    case Exiting => 6
    case Scanning(_) => 5
    case AfterDetach => 4
    case Restoring => 3
    case Republishing => 2
    case Unpinning => 1
    case Done => 0
  }

  function ReceiverRank(pc: ReceiverPc): nat {
    match pc
    case Opened => 10
    case HasRuntime => 9
    case Claimed => 8
    case Rechecked => 7
    case LoaderSeen => 6
    case Vetted => 5
    case Registered => 4
    case Stopping => 3
    case Closed => 2
    case Releasing => 1
    case Gone => 0
  }

  function RecoveryRank(pc: RecoveryPc): nat {
    match pc
    case QReading => 8
    case QHasCopy => 7
    case QChecked => 6
    case QSweeping(_) => 5
    case QRestoring => 4
    case QPublishing => 3
    case QDraining => 2
    case QCleaning => 1
    case QFinished => 0
  }

  predicate Exists(s: State, who: Actor) {
    match who
    case TheLoader => true
    case TheReceiver(p) => p in s.receivers
    case TheRecovery(p) => p in s.recoveries
  }

  function Rank(s: State, who: Actor): nat
    requires Exists(s, who)
  {
    match who
    case TheLoader => LoaderRank(s.w.loader.pc)
    case TheReceiver(p) => ReceiverRank(s.receivers[p].pc)
    case TheRecovery(p) => RecoveryRank(s.recoveries[p].pc)
  }

  lemma EarlyLeadsOn(w: World, step: SetupStep)
    requires SetupEnabled(w, step) && Early(step)
    ensures LoaderRank(SetupNext(w, step).loader.pc) < LoaderRank(w.loader.pc)
  {
    match step
    case Capture =>
    case Pin =>
    case Attach =>
    case VerifySame =>
    case VerifyChanged =>
    case PublishRefresh =>
    case RefreshFailed =>
  }

  lemma LateLeadsOn(w: World, step: SetupStep)
    requires SetupEnabled(w, step) && !Early(step)
    ensures LoaderRank(SetupNext(w, step).loader.pc) < LoaderRank(w.loader.pc)
  {
    match step
    case PublishApplying =>
    case ApplyingFailed =>
    case SetStale =>
    case SetAll(_) =>
    case SetOther(_) =>
    case Rollback(_) =>
    case PublishApplied =>
    case AppliedFailed =>
    case Complete =>
    case Abort =>
  }

  lemma LeavingLeadsOn(w: World, step: ExitStep)
    requires ExitEnabled(w, step) && Leaving(step)
    ensures LoaderRank(ExitNext(w, step).loader.pc) < LoaderRank(w.loader.pc)
  {
    match step
    case PublishStopping =>
    case StoppingFailed =>
    case Detach =>
    case KeepAttached =>
    case NotAttached =>
    case ExportDone =>
    case ExportFailed =>
    case SkipExport =>
  }

  lemma RestoringLeadsOn(w: World, step: ExitStep)
    requires ExitEnabled(w, step) && !Leaving(step)
    ensures LoaderRank(ExitNext(w, step).loader.pc) < LoaderRank(w.loader.pc)
  {
    match step
    case RestoreIdle =>
    case RestoreRefused(_) =>
    case RestoreDone(_) =>
    case RestoreKept(_) =>
    case SkipRestore =>
    case PublishRestored =>
    case RestoredFailed =>
    case Unpin =>
    case KeepPins =>
    case LoaderDies =>
  }

  lemma LoaderLeadsOn(w: World, step: LoaderStep)
    requires LoaderEnabled(w, step)
    ensures LoaderRank(LoaderNext(w, step).loader.pc) < LoaderRank(w.loader.pc)
  {
    match step
    case Up(u) =>
      if Early(u) { EarlyLeadsOn(w, u); } else { LateLeadsOn(w, u); }
    case Down(d) =>
      if Leaving(d) { LeavingLeadsOn(w, d); } else { RestoringLeadsOn(w, d); }
  }

  lemma ReceiverLeadsOn(s: State, p: Pid, step: ReceiverStep)
    requires ReceiverEnabled(s, p, step)
    ensures ReceiverRank(ReceiverNext(s.receivers[p], s.w.rt, step).pc) < ReceiverRank(s.receivers[p].pc)
  {
  }

  lemma RecoveryLeadsOn(w: World, q: Recovery, step: RecoveryStep)
    requires RecoveryEnabled(w, q, step)
    ensures RecoveryRank(RecoveryNext(w, q, step).pc) < RecoveryRank(q.pc)
    ensures WorldAfterRecovery(w, q, step).loader == w.loader
  {
  }

  /** A step of one's own leads on, and nobody else's leads back. */
  lemma StepLeadsOn(s: State, a: Action, who: Actor)
    requires Enabled(s, a) && Exists(s, who)
    ensures Exists(Next(s, a), who) && Rank(Next(s, a), who) <= Rank(s, who) - if By(a, who) then 1 else 0
  {
    match a
    case LoaderDo(l) => LoaderLeadsOn(s.w, l);
    case ReceiverDo(p, step) => ReceiverLeadsOn(s, p, step);
    case RecoveryDo(p, step) => RecoveryLeadsOn(s.w, s.recoveries[p], step);
    case _ =>
  }

  function StepsBy(run: seq<Action>, who: Actor): nat {
    if run == [] then 0 else (if By(run[0], who) then 1 else 0) + StepsBy(run[1..], who)
  }

  /** In every run, failing steps and crashes of the others included, a loader takes at most 14
      steps besides its scan, a receiver at most 10 and a recovery at most 8. */
  lemma {:induction false} StepsAreBounded(s: State, run: seq<Action>, who: Actor)
    requires IsRun(s, run) && Exists(s, who)
    ensures Exists(Final(s, run), who) && StepsBy(run, who) + Rank(Final(s, run), who) <= Rank(s, who)
    ensures Rank(s, who) <= match who case TheLoader => 14 case TheReceiver(_) => 10 case TheRecovery(_) => 8
    decreases |run|
  {
    if run != [] {
      StepLeadsOn(s, run[0], who);
      StepsAreBounded(Next(s, run[0]), run[1..], who);
    }
  }

  // ----- and there is always one

  predicate IsDeath(a: Action) {
    || a == LoaderDo(Down(LoaderDies))
    || (a.ReceiverDo? && a.r == ReceiverDies)
    || (a.RecoveryDo? && a.q == QExit)
  }

  lemma ScanHasStep(s: State, scan: Scan) returns (c: ScanStep)
    requires scan !in {Clear, Live, ScanFailed}
    ensures ScanEnabled(s, scan, c) && c != ScanError
  {
    match scan
    case AtTop =>
      if s.owners == map[] {
        c := NoKeys;
      } else {
        assert s.owners.Keys != {};
        var k :| k in s.owners;
        c := Pick(k);
      }
    case HaveKey(k) => c := if k in s.owners then Found else Vanished;
    case HaveOwner(_, owner) => c := if Alive(s, owner) then JudgeAlive else JudgeDead;
    case Confirming(k) => c := if k in s.owners then StillThere else GoneNow;
    case Deleting(_) => c := Delete;
  }

  /** A loader that has not ended has a step of its own other than dying, wherever it is. */
  lemma LoaderNeverStuck(s: State) returns (a: Action)
    requires s.w.loader.pc != Done
    ensures Enabled(s, a) && !IsDeath(a) && (a.LoaderDo? || a.LoaderScans?)
  {
    var l := s.w.loader;
    match l.pc
    case Starting => a := LoaderDo(Up(Capture));
    case Captured => a := LoaderDo(Up(Pin));
    case Pinned => a := LoaderDo(Up(Attach));
    case Attached => a := LoaderDo(Up(if s.w.device == l.saved then VerifySame else VerifyChanged));
    case Refreshed => a := LoaderDo(Up(PublishRefresh));
    case Verified => a := LoaderDo(Up(PublishApplying));
    case ApplyPublished => a := LoaderDo(Up(if s.w.device == l.saved then SetAll(Requested(l.saved)) else SetStale));
    case RollingBack => a := LoaderDo(Up(Rollback(l.saved)));
    case DeviceSet => a := LoaderDo(Up(PublishApplied));
    case Ready => a := LoaderDo(Up(Complete));
    case Exiting => a := LoaderDo(Down(if l.attached then PublishStopping else NotAttached));
    case Scanning(scan) =>
      if scan in {Clear, Live, ScanFailed} {
        a := LoaderDo(Down(KeepAttached));
      } else {
        var c := ScanHasStep(s, scan);
        a := LoaderScans(c);
      }
    case AfterDetach => a := LoaderDo(Down(if l.complete && !l.attached then ExportDone else SkipExport));
    case Restoring => a := LoaderDo(Down(RestoreStep(s.w)));
    case Republishing => a := LoaderDo(Down(PublishRestored));
    case Unpinning => a := LoaderDo(Down(KeepPins));
  }

  /** Which of the restore steps applies. */
  function RestoreStep(w: World): (step: ExitStep)
    requires w.loader.pc == Restoring
    ensures ExitEnabled(w, step)
  {
    var l := w.loader;
    if l.attached then SkipRestore
    else if !l.active then RestoreIdle
    else if !MayRestore(w.device, l.saved, l.effective, true) then RestoreRefused(true)
    else if l.preserve then RestoreKept(l.saved) else RestoreDone(l.saved)
  }

  // ----- the record

  /** A record that a recovery does not refuse: it does not claim to be changing the device and
      to have changed it at once, and what it claims to have is a stamped configuration. */
  predicate Plausible(rt: Runtime) {
    !(rt.applying && rt.applied) && (rt.applied ==> rt.effective.rxFilter == HWTSTAMP_FILTER_ALL)
  }

  ghost predicate AllPlausible(s: State) {
    LoaderPlausible(s.w) && forall p | p in s.recoveries :: Plausible(s.recoveries[p].copy)
  }

  /** The loader's part of it. */
  predicate LoaderPlausible(w: World) {
    && Plausible(w.rt) && Plausible(w.loader.mem)
    && (w.loader.pc == DeviceSet ==> w.loader.effective.rxFilter == HWTSTAMP_FILTER_ALL)
  }

  lemma EarlyKeepsPlausible(w: World, step: SetupStep)
    requires SetupEnabled(w, step) && Early(step) && LoaderPlausible(w)
    ensures LoaderPlausible(SetupNext(w, step))
  {
  }

  lemma LateKeepsPlausible(w: World, step: SetupStep)
    requires SetupEnabled(w, step) && !Early(step) && LoaderPlausible(w)
    ensures LoaderPlausible(SetupNext(w, step))
  {
  }

  lemma LeavingKeepsPlausible(w: World, step: ExitStep)
    requires ExitEnabled(w, step) && Leaving(step) && LoaderPlausible(w)
    ensures LoaderPlausible(ExitNext(w, step))
  {
  }

  lemma RestoringKeepsPlausible(w: World, step: ExitStep)
    requires ExitEnabled(w, step) && !Leaving(step) && LoaderPlausible(w)
    ensures LoaderPlausible(ExitNext(w, step))
  {
    LastExitRestores(w, step, ExitNext(w, step));
  }

  lemma LoaderKeepsPlausible(w: World, step: LoaderStep)
    requires LoaderEnabled(w, step) && LoaderPlausible(w)
    ensures LoaderPlausible(LoaderNext(w, step))
  {
    match step
    case Up(u) =>
      if Early(u) { EarlyKeepsPlausible(w, u); } else { LateKeepsPlausible(w, u); }
    case Down(d) =>
      if Leaving(d) { LeavingKeepsPlausible(w, d); } else { RestoringKeepsPlausible(w, d); }
  }

  lemma StepKeepsPlausible(s: State, a: Action, s': State)
    requires AllPlausible(s) && Enabled(s, a) && s' == Next(s, a)
    ensures AllPlausible(s')
  {
    match a
    case LoaderDo(l) => LoaderKeepsPlausible(s.w, l);
    case RecoveryDo(p, _) => assert Plausible(s.recoveries[p].copy);
    case RecoveryScans(p, _) => assert Plausible(s.recoveries[p].copy);
    case _ =>
  }

  lemma {:induction false} RunKeepsPlausible(s: State, run: seq<Action>)
    requires AllPlausible(s) && IsRun(s, run)
    ensures AllPlausible(Final(s, run))
    decreases |run|
  {
    if run != [] {
      StepKeepsPlausible(s, run[0], Next(s, run[0]));
      RunKeepsPlausible(Next(s, run[0]), run[1..]);
    }
  }

  /** In every reachable state the record is one a recovery does not refuse. */
  lemma RecordIsPlausible(s: State)
    requires Reachable(s)
    ensures Plausible(s.w.rt)
  {
    var original, run :| IsRun(Init(original), run) && Final(Init(original), run) == s;
    RunKeepsPlausible(Init(original), run);
  }
}
