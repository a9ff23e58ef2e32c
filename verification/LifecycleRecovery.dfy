/** Crash consistency of the saved device configuration, and exactly when it fails. */
module LifecycleRecovery {
  import opened Hwtstamp
  import opened Lifecycle

  /** The configurations a run starting from `o` ever asks for. */
  predicate Known(c: Config, o: Config) {
    c == o || c == Requested(o)
  }

  /** The loader has its maps pinned and may still change the device, but has not yet
      published that it will. */
  predicate MayStillAnnounce(l: Loader) {
    l.pc in {Pinned, Attached, Verified}
  }

  /** Steps that are clean in whatever state they happen: nobody else changes the device,
      and the driver leaves behind the saved or the requested configuration, and the saved
      one when asked for it. */
  predicate InnocentLoader(step: LoaderStep, o: Config) {
    match step
    case Up(SetAll(c)) => Known(c, o)
    case Up(SetOther(c)) => Known(c, o)
    case Up(Rollback(c)) => c == o
    case Down(RestoreDone(c)) => c == o
    case Down(RestoreKept(c)) => c == o
    case _ => true
  }

  predicate Innocent(a: Action, o: Config) {
    match a
    case External(_) => false
    case LoaderDo(l) => InnocentLoader(l, o)
    case RecoveryDo(_, QRestoreDone(c)) => c == o
    case RecoveryDo(_, QRead) => false
    case _ => true
  }

  predicate CleanRecovery(w: World, step: RecoveryStep, o: Config) {
    match step
    case QRestoreDone(c) => c == o
    case QRead => MayStillAnnounce(w.loader) ==> Requested(o) == o
    case _ => true
  }

  /** ... and no recovery reads the runtime record while its loader may still announce a
      change. */
  predicate Clean(s: State, o: Config, a: Action) {
    match a
    case RecoveryDo(_, q) => CleanRecovery(s.w, q, o)
    case _ => Innocent(a, o)
  }

  predicate CleanRun(s: State, o: Config, run: seq<Action>)
    requires IsRun(s, run)
    decreases |run|
  {
    run == [] || (Clean(s, o, run[0]) && CleanRun(Next(s, run[0]), o, run[1..]))
  }

  // ----- the invariant of clean runs

  predicate BeforeSet(l: Loader) {
    l.pc in {Starting, Captured, Pinned, Attached, Verified, ApplyPublished}
  }

  /** Control facts about the loader that do not mention any configuration. */
  predicate LoaderControl(w: World) {
    var l := w.loader;
    && (l.pc in {Starting, Captured} ==> !w.pins && !l.pinned)
    && (l.pc in {Captured, Pinned, Attached, Verified, ApplyPublished, RollingBack, DeviceSet, Ready} ==> l.active)
    && (l.pc in {Pinned, Attached, Refreshed, Verified, ApplyPublished, RollingBack, DeviceSet, Ready} ==> l.pinned)
    && (l.attached || l.preserve ==> l.pinned)
    && (l.pinned && l.pc != Done ==> w.pins)
    && (l.attached && l.pc in {AfterDetach, Restoring, Republishing, Unpinning} ==> l.preserve)
  }

  predicate LoaderValues(w: World, o: Config) {
    var l := w.loader;
    && Known(w.device, o) && Known(l.effective, o) && Known(l.mem.effective, o) && Known(w.rt.effective, o)
    && l.saved == o && l.mem.saved == o && w.rt.saved == o
    && l.pc != Refreshed
    && (l.pc == ApplyPublished ==> l.effective == l.mem.effective == w.rt.effective == Requested(o))
    && (MayStillAnnounce(l) || l.pc in {Starting, Captured} ==> l.effective == o && w.rt.effective == o)
  }

  /** A changed device is described by the persisted record ... */
  predicate Persisted(w: World) {
    w.device != w.loader.saved ==> w.pins && w.rt.effective == w.device
  }

  /** ... and by a loader that will not leave without restoring it or keeping the pins. */
  predicate Responsible(w: World) {
    var l := w.loader;
    w.device != l.saved && l.pc != Done ==>
      && l.effective == w.device && l.mem.effective == w.device && l.active && l.pinned
      && !BeforeSet(l) && l.pc != Republishing && (l.pc == Unpinning ==> l.preserve)
  }

  predicate LoaderConf(w: World, o: Config) {
    LoaderControl(w) && LoaderValues(w, o) && Persisted(w) && Responsible(w)
  }

  predicate RecoveryConf(w: World, o: Config, q: Recovery) {
    q.pc !in {QReading, QFinished} ==>
      && q.copy.saved == o && Known(q.copy.effective, o)
      && (w.device != o ==> q.copy.effective == w.device)
      && (BeforeSet(w.loader) ==> q.copy.effective == Requested(o))
      && (q.pc !in {QHasCopy} ==> w.loader.pc == Done)
      && (q.pc == QPublishing ==> w.device == o && q.copy.effective == o)
      && (q.pc in {QDraining, QCleaning} && !q.stateError ==> w.device == o)
  }

  ghost predicate Conf(s: State, o: Config) {
    && LoaderConf(s.w, o)
    && (s.w.loader.pc in {Starting, Captured} ==> s.recoveries == map[])
    && forall p | p in s.recoveries :: RecoveryConf(s.w, o, s.recoveries[p])
  }

  // ----- loader steps

  lemma SetupKeepsControl(w: World, step: SetupStep, w': World)
    requires LoaderControl(w) && SetupEnabled(w, step) && w' == SetupNext(w, step)
    ensures LoaderControl(w')
  {
  }

  lemma LeavingKeepsControl(w: World, step: ExitStep, w': World)
    requires LoaderControl(w) && ExitEnabled(w, step) && w' == ExitNext(w, step)
    requires Leaving(step)
    ensures LoaderControl(w')
  {
  }

  lemma LastExitKeepsControl(w: World, step: ExitStep, w': World)
    requires LoaderControl(w) && ExitEnabled(w, step) && w' == ExitNext(w, step)
    requires !Leaving(step)
    ensures LoaderControl(w')
  {
  }

  lemma ExitKeepsControl(w: World, step: ExitStep, w': World)
    requires LoaderControl(w) && ExitEnabled(w, step) && w' == ExitNext(w, step)
    ensures LoaderControl(w')
  {
    if Leaving(step) {
      LeavingKeepsControl(w, step, w');
    } else {
      LastExitKeepsControl(w, step, w');
    }
  }

  lemma LoaderKeepsControl(w: World, step: LoaderStep, w': World)
    requires LoaderControl(w) && LoaderEnabled(w, step) && w' == LoaderNext(w, step)
    ensures LoaderControl(w')
  {
    match step
    case Up(u) => SetupKeepsControl(w, u, w');
    case Down(d) => ExitKeepsControl(w, d, w');
  }

  lemma EarlySetupKeepsValues(w: World, o: Config, step: SetupStep, w': World)
    requires LoaderValues(w, o) && Responsible(w) && SetupEnabled(w, step) && w' == SetupNext(w, step)
    requires InnocentLoader(Up(step), o)
    requires Early(step)
    ensures LoaderValues(w', o)
  {
  }

  lemma AnnounceKeepsValues(w: World, o: Config, step: SetupStep, w': World)
    requires LoaderValues(w, o) && SetupEnabled(w, step) && w' == SetupNext(w, step) && step in {PublishApplying, ApplyingFailed}
    ensures LoaderValues(w', o)
  {
  }

  lemma SetKeepsValues(w: World, o: Config, step: SetupStep, w': World)
    requires LoaderValues(w, o) && SetupEnabled(w, step) && w' == SetupNext(w, step) && InnocentLoader(Up(step), o)
    requires step.SetAll? || step.SetOther? || step.Rollback?
    ensures LoaderValues(w', o)
  {
  }

  lemma LateSetupKeepsValues(w: World, o: Config, step: SetupStep, w': World)
    requires LoaderValues(w, o) && Responsible(w) && SetupEnabled(w, step) && w' == SetupNext(w, step)
    requires InnocentLoader(Up(step), o)
    requires !Early(step) && step !in {PublishApplying, ApplyingFailed} && !step.SetAll? && !step.SetOther? && !step.Rollback?
    ensures LoaderValues(w', o)
  {
  }

  lemma SetupKeepsValues(w: World, o: Config, step: SetupStep, w': World)
    requires LoaderValues(w, o) && Responsible(w) && SetupEnabled(w, step) && w' == SetupNext(w, step)
    requires InnocentLoader(Up(step), o)
    ensures LoaderValues(w', o)
  {
    if Early(step) {
      EarlySetupKeepsValues(w, o, step, w');
    } else if step in {PublishApplying, ApplyingFailed} {
      AnnounceKeepsValues(w, o, step, w');
    } else if step.SetAll? || step.SetOther? || step.Rollback? {
      SetKeepsValues(w, o, step, w');
    } else {
      LateSetupKeepsValues(w, o, step, w');
    }
  }

  lemma LeavingKeepsValues(w: World, o: Config, step: ExitStep, w': World)
    requires LoaderValues(w, o) && ExitEnabled(w, step) && w' == ExitNext(w, step)
    requires InnocentLoader(Down(step), o)
    requires Leaving(step)
    ensures LoaderValues(w', o)
  {
  }

  lemma RestoreKeepsValues(w: World, o: Config, w': World)
    requires LoaderValues(w, o) && RestoreEffect(w, w', o)
    ensures LoaderValues(w', o)
  {
  }

  lemma ExitKeepsValues(w: World, o: Config, step: ExitStep, w': World)
    requires LoaderValues(w, o) && ExitEnabled(w, step) && w' == ExitNext(w, step)
    requires InnocentLoader(Down(step), o)
    ensures LoaderValues(w', o)
  {
    if Leaving(step) {
      LeavingKeepsValues(w, o, step, w');
    } else {
      LastExitRestores(w, step, w');
      RestoreKeepsValues(w, o, w');
    }
  }

  lemma LoaderKeepsValues(w: World, o: Config, step: LoaderStep, w': World)
    requires LoaderValues(w, o) && Responsible(w) && LoaderEnabled(w, step) && w' == LoaderNext(w, step)
    requires InnocentLoader(step, o)
    ensures LoaderValues(w', o)
  {
    match step
    case Up(u) => SetupKeepsValues(w, o, u, w');
    case Down(d) => ExitKeepsValues(w, o, d, w');
  }

  lemma SetupKeepsPersisted(w: World, o: Config, step: SetupStep, w': World)
    requires LoaderConf(w, o) && SetupEnabled(w, step) && w' == SetupNext(w, step) && InnocentLoader(Up(step), o)
    ensures Persisted(w')
  {
  }

  lemma ExitKeepsPersisted(w: World, o: Config, step: ExitStep, w': World)
    requires LoaderConf(w, o) && ExitEnabled(w, step) && w' == ExitNext(w, step) && InnocentLoader(Down(step), o)
    ensures Persisted(w')
  {
  }

  lemma LoaderKeepsPersisted(w: World, o: Config, step: LoaderStep, w': World)
    requires LoaderConf(w, o) && LoaderEnabled(w, step) && w' == LoaderNext(w, step) && InnocentLoader(step, o)
    ensures Persisted(w')
  {
    match step
    case Up(u) => SetupKeepsPersisted(w, o, u, w');
    case Down(d) => ExitKeepsPersisted(w, o, d, w');
  }

  lemma SetupKeepsResponsible(w: World, o: Config, step: SetupStep, w': World)
    requires LoaderConf(w, o) && SetupEnabled(w, step) && w' == SetupNext(w, step) && InnocentLoader(Up(step), o)
    ensures Responsible(w')
  {
  }

  lemma ExitKeepsResponsible(w: World, o: Config, step: ExitStep, w': World)
    requires LoaderConf(w, o) && ExitEnabled(w, step) && w' == ExitNext(w, step) && InnocentLoader(Down(step), o)
    ensures Responsible(w')
  {
  }

  lemma LoaderKeepsResponsible(w: World, o: Config, step: LoaderStep, w': World)
    requires LoaderConf(w, o) && LoaderEnabled(w, step) && w' == LoaderNext(w, step) && InnocentLoader(step, o)
    ensures Responsible(w')
  {
    match step
    case Up(u) => SetupKeepsResponsible(w, o, u, w');
    case Down(d) => ExitKeepsResponsible(w, o, d, w');
  }

  lemma SetupKeepsRecoveryConf(w: World, o: Config, step: SetupStep, w': World, q: Recovery)
    requires LoaderConf(w, o) && RecoveryConf(w, o, q)
    requires SetupEnabled(w, step) && w' == SetupNext(w, step) && InnocentLoader(Up(step), o)
    requires w.loader.pc !in {Starting, Captured}
    ensures RecoveryConf(w', o, q) && w'.loader.pc !in {Starting, Captured}
  {
  }

  lemma LeavingKeepsRecoveryConf(w: World, o: Config, step: ExitStep, w': World, q: Recovery)
    requires LoaderConf(w, o) && RecoveryConf(w, o, q)
    requires ExitEnabled(w, step) && w' == ExitNext(w, step) && InnocentLoader(Down(step), o)
    requires w.loader.pc !in {Starting, Captured}
    requires Leaving(step)
    ensures RecoveryConf(w', o, q) && w'.loader.pc !in {Starting, Captured}
  {
  }

  lemma RestoreKeepsRecoveryConf(w: World, o: Config, w': World, q: Recovery)
    requires LoaderConf(w, o) && RecoveryConf(w, o, q) && RestoreEffect(w, w', o)
    ensures RecoveryConf(w', o, q)
  {
  }

  lemma ExitKeepsRecoveryConf(w: World, o: Config, step: ExitStep, w': World, q: Recovery)
    requires LoaderConf(w, o) && RecoveryConf(w, o, q)
    requires ExitEnabled(w, step) && w' == ExitNext(w, step) && InnocentLoader(Down(step), o)
    requires w.loader.pc !in {Starting, Captured}
    ensures RecoveryConf(w', o, q) && w'.loader.pc !in {Starting, Captured}
  {
    if Leaving(step) {
      LeavingKeepsRecoveryConf(w, o, step, w', q);
    } else {
      LastExitRestores(w, step, w');
      RestoreKeepsRecoveryConf(w, o, w', q);
    }
  }

  lemma LoaderKeepsRecoveryConf(w: World, o: Config, step: LoaderStep, w': World, q: Recovery)
    requires LoaderConf(w, o) && RecoveryConf(w, o, q)
    requires LoaderEnabled(w, step) && w' == LoaderNext(w, step) && InnocentLoader(step, o)
    requires w.loader.pc !in {Starting, Captured}
    ensures RecoveryConf(w', o, q) && w'.loader.pc !in {Starting, Captured}
  {
    match step
    case Up(u) => SetupKeepsRecoveryConf(w, o, u, w', q);
    case Down(d) => ExitKeepsRecoveryConf(w, o, d, w', q);
  }

  lemma LoaderKeepsConf(s: State, o: Config, step: LoaderStep, s': State)
    requires Conf(s, o) && LoaderEnabled(s.w, step) && InnocentLoader(step, o)
    requires s'.w == LoaderNext(s.w, step) && s'.recoveries == s.recoveries
    ensures Conf(s', o)
  {
    LoaderKeepsControl(s.w, step, s'.w);
    LoaderKeepsValues(s.w, o, step, s'.w);
    LoaderKeepsPersisted(s.w, o, step, s'.w);
    LoaderKeepsResponsible(s.w, o, step, s'.w);
    forall p | p in s.recoveries
      ensures RecoveryConf(s'.w, o, s.recoveries[p]) && s'.w.loader.pc !in {Starting, Captured}
    {
      assert s.recoveries != map[];
      LoaderKeepsRecoveryConf(s.w, o, step, s'.w, s.recoveries[p]);
    }
    assert s'.recoveries != map[] ==> exists p :: p in s.recoveries;
  }

  // ----- recovery steps

  lemma RecoveryStepConf(w: World, o: Config, q: Recovery, step: RecoveryStep, w': World, q': Recovery)
    requires LoaderConf(w, o) && RecoveryConf(w, o, q) && RecoveryEnabled(w, q, step) && CleanRecovery(w, step, o)
    requires w' == WorldAfterRecovery(w, q, step) && q' == RecoveryNext(w, q, step)
    requires w.loader.pc !in {Starting, Captured}
    ensures LoaderConf(w', o) && RecoveryConf(w', o, q')
    ensures w'.loader == w.loader && (w'.device == w.device || w'.device == o)
  {
  }

  lemma RecoveryKeepsConf(s: State, o: Config, p: Pid, step: RecoveryStep, s': State)
    requires Conf(s, o) && Enabled(s, RecoveryDo(p, step)) && s' == Next(s, RecoveryDo(p, step))
    requires CleanRecovery(s.w, step, o)
    ensures Conf(s', o)
  {
    assert s.recoveries != map[];
    RecoveryStepConf(s.w, o, s.recoveries[p], step, s'.w, s'.recoveries[p]);
    forall x | x in s'.recoveries
      ensures RecoveryConf(s'.w, o, s'.recoveries[x])
    {
      assert RecoveryConf(s.w, o, s.recoveries[x]);
    }
  }

  // ----- everything else leaves the device and its records alone

  /** Only a scan position, or a newly started recovery, differs. */
  ghost predicate Bystander(s: State, s': State) {
    && s'.w == s.w.(loader := s.w.loader.(pc := s'.w.loader.pc))
    && (s'.w.loader.pc == s.w.loader.pc || (s.w.loader.pc.Scanning? && s'.w.loader.pc.Scanning?))
    && (s'.recoveries != s.recoveries ==> s.w.pins || s.recoveries != map[])
    && forall p | p in s'.recoveries ::
         var q' := s'.recoveries[p];
         if p in s.recoveries then
           var q := s.recoveries[p];
           q' == q || (q.pc.QSweeping? && q'.pc.QSweeping? && q' == q.(pc := q'.pc))
         else q'.pc == QReading
  }

  lemma BystanderKeepsConf(s: State, o: Config, s': State)
    requires Conf(s, o) && Bystander(s, s')
    ensures Conf(s', o)
  {
    forall p | p in s'.recoveries
      ensures RecoveryConf(s'.w, o, s'.recoveries[p])
    {
      if p in s.recoveries {
        assert RecoveryConf(s.w, o, s.recoveries[p]);
      }
    }
  }

  lemma ScanIsBystander(s: State, a: Action, s': State)
    requires Enabled(s, a) && s' == Next(s, a) && (a.LoaderScans? || a.RecoveryScans?)
    ensures Bystander(s, s')
  {
  }

  lemma ArrivalIsBystander(s: State, a: Action, s': State)
    requires Enabled(s, a) && s' == Next(s, a) && (a.ReceiverDo? || a.SpawnReceiver? || a.SpawnRecovery?)
    ensures Bystander(s, s')
  {
  }

  lemma OthersAreBystanders(s: State, a: Action, s': State)
    requires Enabled(s, a) && s' == Next(s, a) && !a.LoaderDo? && !a.RecoveryDo? && !a.External?
    ensures Bystander(s, s')
  {
    if a.LoaderScans? || a.RecoveryScans? {
      ScanIsBystander(s, a, s');
    } else {
      ArrivalIsBystander(s, a, s');
    }
  }

  lemma StepKeepsConf(s: State, o: Config, a: Action, s': State)
    requires Conf(s, o) && Enabled(s, a) && s' == Next(s, a) && Clean(s, o, a)
    ensures Conf(s', o)
  {
    match a
    case LoaderDo(l) => LoaderKeepsConf(s, o, l, s');
    case RecoveryDo(p, q) => RecoveryKeepsConf(s, o, p, q, s');
    case _ =>
      OthersAreBystanders(s, a, s');
      BystanderKeepsConf(s, o, s');
  }

  lemma {:induction false} CleanRunKeepsConf(s: State, o: Config, run: seq<Action>)
    requires Conf(s, o) && IsRun(s, run) && CleanRun(s, o, run)
    ensures Conf(Final(s, run), o)
    decreases |run|
  {
    if run != [] {
      var s' := Next(s, run[0]);
      StepKeepsConf(s, o, run[0], s');
      CleanRunKeepsConf(s', o, run[1..]);
    }
  }

  /** Wherever a clean run stops, crashes of the loader and of recoveries included: while
      the maps are pinned the record names the original configuration and the device has
      one of the two recorded ones; once they are gone the device is as it was found. */
  lemma CrashConsistent(original: Config, run: seq<Action>)
    requires IsRun(Init(original), run) && CleanRun(Init(original), original, run)
    ensures var s := Final(Init(original), run);
            && (s.w.pins ==> s.w.rt.saved == original && MayRestore(s.w.device, s.w.rt.saved, s.w.rt.effective, true))
            && (!s.w.pins ==> s.w.device == original)
  {
    CleanRunKeepsConf(Init(original), original, run);
  }

  /** A process name that is not in use. */
  lemma FreshPid(s: State) returns (p: Pid)
    ensures p !in s.receivers && p !in s.recoveries
  {
    p := Above(s.receivers.Keys + s.recoveries.Keys);
  }

  lemma {:induction false} Above(names: set<Pid>) returns (p: Pid)
    ensures forall n | n in names :: n < p
    decreases |names|
  {
    if names == {} {
      p := 0;
    } else {
      var n :| n in names;
      var q := Above(names - {n});
      assert names == names - {n} + {n};
      p := q + n + 1;
    }
  }

  // ----- the two conditions of a clean run are exact

  lemma {:induction false} InnocentRunIsClean(s: State, o: Config, run: seq<Action>)
    requires IsRun(s, run) && forall a | a in run :: Innocent(a, o)
    ensures CleanRun(s, o, run)
    decreases |run|
  {
    if run != [] {
      assert Innocent(run[0], o);
      InnocentRunIsClean(Next(s, run[0]), o, run[1..]);
    }
  }

  /** From the start to the pinned maps. */
  lemma ReachPinned(o: Config) returns (run: seq<Action>, t: State)
    ensures run == [LoaderDo(Up(Capture)), LoaderDo(Up(Pin))] && IsRun(Init(o), run) && Final(Init(o), run) == t
    ensures CleanRun(Init(o), o, run)
    ensures t.w.loader.pc == Pinned && t.w.device == t.w.loader.saved == o && t.w.pins && t == Init(o).(w := t.w)
  {
    run, t := Extend(Init(o), [], Init(o), LoaderDo(Up(Capture)));
    run, t := Extend(Init(o), run, t, LoaderDo(Up(Pin)));
    InnocentRunIsClean(Init(o), o, run);
  }

  lemma ReachVerified(s: State) returns (run: seq<Action>, t: State)
    requires MayStillAnnounce(s.w.loader) && s.w.device == s.w.loader.saved
    ensures IsRun(s, run) && Final(s, run) == t && t.w.loader.pc == Verified
    ensures forall a | a in run :: Innocent(a, s.w.loader.saved)
    ensures t.w.device == s.w.device && t.w.loader.saved == s.w.loader.saved && t.w.pins == s.w.pins && t == s.(w := t.w)
  {
    if s.w.loader.pc == Pinned {
      run, t := Extend(s, [], s, LoaderDo(Up(Attach)));
      run, t := Extend(s, run, t, LoaderDo(Up(VerifySame)));
    } else if s.w.loader.pc == Attached {
      run, t := Extend(s, [], s, LoaderDo(Up(VerifySame)));
    } else {
      run, t := [], s;
    }
  }

  /** The loader announces its request, the driver answers, and the loader dies. */
  lemma SetAndDie(s: State, answer: Config) returns (run: seq<Action>, t: State)
    requires s.w.loader.pc == Verified && s.w.device == s.w.loader.saved
    ensures IsRun(s, run) && Final(s, run) == t
    ensures Known(answer, s.w.loader.saved) ==> forall a | a in run :: Innocent(a, s.w.loader.saved)
    ensures t.w.loader.pc == Done && t.w.device == answer && t.recoveries == s.recoveries && t.w.pins == s.w.pins
    ensures t.w.rt.saved == s.w.loader.saved && t.w.rt.effective == Requested(s.w.loader.saved)
  {
    run, t := Extend(s, [], s, LoaderDo(Up(PublishApplying)));
    run, t := Answered(s, run, t, answer);
    run, t := Extend(s, run, t, LoaderDo(Down(LoaderDies)));
  }

  lemma Answered(s: State, before: seq<Action>, t: State, answer: Config) returns (run: seq<Action>, u: State)
    requires IsRun(s, before) && Final(s, before) == t && t.w.loader.pc == ApplyPublished && t.w.device == t.w.loader.saved
    ensures IsRun(s, run) && Final(s, run) == u && (run == before + [LoaderDo(Up(SetAll(answer)))] || run == before + [LoaderDo(Up(SetOther(answer)))])
    ensures u.w.device == answer && u.w.rt == t.w.rt && u.recoveries == t.recoveries && u.w.pins == t.w.pins && u.w.loader.pc != Done
  {
    if answer.rxFilter == HWTSTAMP_FILTER_ALL {
      run, u := Extend(s, before, t, LoaderDo(Up(SetAll(answer))));
    } else {
      run, u := Extend(s, before, t, LoaderDo(Up(SetOther(answer))));
    }
  }

  /** A recovery starts at `s` and reads the runtime record. */
  function AfterRead(s: State, p: Pid): State
    requires Enabled(s, SpawnRecovery(p))
  {
    var t := Next(s, SpawnRecovery(p));
    Next(t, RecoveryDo(p, QRead))
  }

  /** Nothing unclean happens after that read, and yet the device ends up with a
      configuration the pinned record does not name. */
  ghost predicate ReadLosesDevice(s: State, o: Config, p: Pid, rest: seq<Action>) {
    && Enabled(s, SpawnRecovery(p)) && IsRun(AfterRead(s, p), rest)
    && (forall a | a in rest :: Innocent(a, o))
    && var u := Final(AfterRead(s, p), rest);
    && u.w.pins && !MayRestore(u.w.device, u.w.rt.saved, u.w.rt.effective, true)
  }

  lemma EarlyReadLosesDevice(s: State, o: Config) returns (p: Pid, rest: seq<Action>)
    requires Conf(s, o) && s.w.pins && MayStillAnnounce(s.w.loader) && Requested(o) != o
    ensures ReadLosesDevice(s, o, p, rest)
  {
    p := FreshPid(s);
    rest := StaleCopyLoses(AfterRead(s, p), o, p);
  }

  /** A recovery holds a copy from before the announcement. */
  lemma StaleCopyLoses(t: State, o: Config, p: Pid) returns (rest: seq<Action>)
    requires MayStillAnnounce(t.w.loader) && t.w.device == t.w.loader.saved == o && Requested(o) != o && t.w.pins
    requires p in t.recoveries && t.recoveries[p].pc == QHasCopy
    requires t.recoveries[p].copy.saved == t.recoveries[p].copy.effective == o
    ensures IsRun(t, rest) && forall a | a in rest :: Innocent(a, o)
    ensures var u := Final(t, rest); u.w.pins && !MayRestore(u.w.device, u.w.rt.saved, u.w.rt.effective, true)
  {
    var u;
    rest, u := ReachVerified(t);
    var more, v := SetAndDie(u, Requested(o));
    Concat(t, rest, more);
    rest, u := rest + more, v;
    rest, u := PublishCopy(t, rest, u, p);
  }

  /** A recovery finds the loader dead and publishes the copy it read before. */
  lemma PublishCopy(s: State, before: seq<Action>, t: State, p: Pid) returns (run: seq<Action>, u: State)
    requires IsRun(s, before) && Final(s, before) == t
    requires p in t.recoveries && t.recoveries[p].pc == QHasCopy && t.w.loader.pc == Done
    ensures IsRun(s, run) && Final(s, run) == u
    ensures run == before + [RecoveryDo(p, QCheckDead)] + [RecoveryDo(p, QPublishStopping)]
    ensures u.w == t.w.(rt := t.recoveries[p].copy.(stopping := true))
  {
    run, u := Extend(s, before, t, RecoveryDo(p, QCheckDead));
    run, u := Extend(s, run, u, RecoveryDo(p, QPublishStopping));
  }

  lemma LateReadKeepsDevice(s: State, o: Config, p: Pid, rest: seq<Action>)
    requires Conf(s, o) && !(MayStillAnnounce(s.w.loader) && Requested(o) != o)
    ensures !ReadLosesDevice(s, o, p, rest)
  {
    if ReadLosesDevice(s, o, p, rest) {
      var t0 := Next(s, SpawnRecovery(p));
      var t := AfterRead(s, p);
      StepKeepsConf(s, o, SpawnRecovery(p), t0);
      StepKeepsConf(t0, o, RecoveryDo(p, QRead), t);
      InnocentRunIsClean(t, o, rest);
      CleanRunKeepsConf(t, o, rest);
      assert false;
    }
  }

  /** The exact condition for starting `--recover` at any point of a clean run: a recovery
      that reads the runtime record now can lose the device configuration if and only if
      its loader may still announce a change and the change is a real one.  The record is
      read before the loader is found dead, and that copy is what gets written back. */
  lemma EarlyReadIsTheOnlyDanger(o: Config, before: seq<Action>)
    requires IsRun(Init(o), before) && CleanRun(Init(o), o, before) && Final(Init(o), before).w.pins
    ensures var s := Final(Init(o), before);
            (exists p, rest :: ReadLosesDevice(s, o, p, rest)) <==> MayStillAnnounce(s.w.loader) && Requested(o) != o
  {
    var s := Final(Init(o), before);
    CleanRunKeepsConf(Init(o), o, before);
    if MayStillAnnounce(s.w.loader) && Requested(o) != o {
      var p, rest := EarlyReadLosesDevice(s, o);
    } else {
      forall p, rest
        ensures !ReadLosesDevice(s, o, p, rest)
      {
        LateReadKeepsDevice(s, o, p, rest);
      }
    }
  }

  /** Such a read happens: a recovery started right after the maps are pinned, wherever the
      request is a real change. */
  lemma EarlyReadHappens(o: Config) returns (p: Pid, rest: seq<Action>)
    requires Requested(o) != o
    ensures var before := [LoaderDo(Up(Capture)), LoaderDo(Up(Pin))];
            && IsRun(Init(o), before) && CleanRun(Init(o), o, before)
            && ReadLosesDevice(Final(Init(o), before), o, p, rest)
  {
    var run, t := ReachPinned(o);
    CleanRunKeepsConf(Init(o), o, run);
    p, rest := EarlyReadLosesDevice(t, o);
  }

  /** A driver that answers the request with anything but the requested or the saved
      configuration leaves a crash point from which nothing restores the device. */
  lemma OtherAnswerLosesDevice(o: Config, answer: Config) returns (run: seq<Action>)
    requires !Known(answer, o)
    ensures IsRun(Init(o), run)
    ensures var t := Final(Init(o), run);
            t.w.pins && t.w.loader.pc == Done && !MayRestore(t.w.device, t.w.rt.saved, t.w.rt.effective, true)
  {
    var s := Init(o);
    var t;
    run, t := ReachPinned(o);
    var more, u := ReachVerified(t);
    Concat(s, run, more);
    run, t := run + more, u;
    more, u := SetAndDie(t, answer);
    Concat(s, run, more);
    run := run + more;
  }
}
