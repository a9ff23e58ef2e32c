/** What happens to somebody else's device configuration, and when the pinned maps go. */
module LifecyclePins {
  import opened Hwtstamp
  import opened Lifecycle
  import H = LifecycleHandshake
  import R = LifecycleRecovery

  // ----- a configuration set by somebody else

  /** `x` is neither of the two remembered configurations, or it is both of them. */
  predicate Unrelated(x: Config, saved: Config, effective: Config) {
    (x != saved && x != effective) || (saved == x && effective == x)
  }

  /** The device has `x`, and nothing the loader remembers would lead it to overwrite `x`. */
  predicate ForeignToLoader(w: World, x: Config) {
    var l := w.loader;
    && w.device == x
    && Unrelated(x, l.saved, l.effective)
    && Unrelated(x, l.mem.saved, l.mem.effective)
    && Unrelated(x, w.rt.saved, w.rt.effective)
    && l.pc !in {Starting, RollingBack}
    && (l.pc in {Captured, Pinned, Attached, Verified, ApplyPublished} ==> l.saved != x)
    && (l.pc in {Captured, Pinned, Attached, Verified} ==> Requested(l.saved) != x)
  }

  predicate ForeignToCopy(q: Recovery, x: Config) {
    q.pc !in {QReading, QFinished} ==> Unrelated(x, q.copy.saved, q.copy.effective)
  }

  ghost predicate Foreign(s: State, x: Config) {
    && ForeignToLoader(s.w, x)
    && forall p | p in s.recoveries :: ForeignToCopy(s.recoveries[p], x)
  }

  /** A driver asked for a configuration it reported itself adopts it. */
  predicate LoaderEcho(w: World, step: LoaderStep) {
    match step
    case Down(RestoreDone(c)) => c == w.loader.saved
    case Down(RestoreKept(c)) => c == w.loader.saved
    case _ => true
  }

  predicate RecoveryEcho(q: Recovery, step: RecoveryStep) {
    match step
    case QRestoreDone(c) => c == q.copy.saved
    case _ => true
  }

  /** ... and nobody else changes the device again. */
  predicate Echo(s: State, a: Action) {
    match a
    case External(_) => false
    case LoaderDo(l) => LoaderEcho(s.w, l)
    case RecoveryDo(p, q) => p in s.recoveries && RecoveryEcho(s.recoveries[p], q)
    case _ => true
  }

  predicate EchoRun(s: State, run: seq<Action>)
    requires IsRun(s, run)
    decreases |run|
  {
    run == [] || (Echo(s, run[0]) && EchoRun(Next(s, run[0]), run[1..]))
  }

  lemma EarlySetupKeepsForeign(w: World, x: Config, step: SetupStep, w': World)
    requires ForeignToLoader(w, x) && SetupEnabled(w, step) && w' == SetupNext(w, step) && LoaderEcho(w, Up(step))
    requires Early(step)
    ensures ForeignToLoader(w', x)
  {
  }

  lemma LateSetupKeepsForeign(w: World, x: Config, step: SetupStep, w': World)
    requires ForeignToLoader(w, x) && SetupEnabled(w, step) && w' == SetupNext(w, step) && LoaderEcho(w, Up(step))
    requires !Early(step)
    ensures ForeignToLoader(w', x)
  {
  }

  lemma SetupKeepsForeign(w: World, x: Config, step: SetupStep, w': World)
    requires ForeignToLoader(w, x) && SetupEnabled(w, step) && w' == SetupNext(w, step) && LoaderEcho(w, Up(step))
    ensures ForeignToLoader(w', x)
  {
    if Early(step) {
      EarlySetupKeepsForeign(w, x, step, w');
    } else {
      LateSetupKeepsForeign(w, x, step, w');
    }
  }

  lemma LeavingKeepsForeign(w: World, x: Config, step: ExitStep, w': World)
    requires ForeignToLoader(w, x) && ExitEnabled(w, step) && w' == ExitNext(w, step) && LoaderEcho(w, Down(step))
    requires Leaving(step)
    ensures ForeignToLoader(w', x)
  {
  }

  lemma RestoreKeepsForeign(w: World, x: Config, w': World)
    requires ForeignToLoader(w, x) && RestoreEffect(w, w', w.loader.saved)
    ensures ForeignToLoader(w', x)
  {
  }

  lemma ExitKeepsForeign(w: World, x: Config, step: ExitStep, w': World)
    requires ForeignToLoader(w, x) && ExitEnabled(w, step) && w' == ExitNext(w, step) && LoaderEcho(w, Down(step))
    ensures ForeignToLoader(w', x)
  {
    if Leaving(step) {
      LeavingKeepsForeign(w, x, step, w');
    } else {
      LastExitRestores(w, step, w');
      RestoreKeepsForeign(w, x, w');
    }
  }

  lemma LoaderKeepsForeign(w: World, x: Config, step: LoaderStep, w': World)
    requires ForeignToLoader(w, x) && LoaderEnabled(w, step) && w' == LoaderNext(w, step) && LoaderEcho(w, step)
    ensures ForeignToLoader(w', x)
  {
    match step
    case Up(u) => SetupKeepsForeign(w, x, u, w');
    case Down(d) => ExitKeepsForeign(w, x, d, w');
  }

  lemma RecoveryStepForeign(w: World, x: Config, q: Recovery, step: RecoveryStep, w': World, q': Recovery)
    requires ForeignToLoader(w, x) && ForeignToCopy(q, x) && RecoveryEnabled(w, q, step) && RecoveryEcho(q, step)
    requires w' == WorldAfterRecovery(w, q, step) && q' == RecoveryNext(w, q, step)
    ensures ForeignToLoader(w', x) && ForeignToCopy(q', x)
  {
  }

  lemma StepKeepsForeign(s: State, x: Config, a: Action, s': State)
    requires Foreign(s, x) && Enabled(s, a) && s' == Next(s, a) && Echo(s, a)
    ensures Foreign(s', x)
  {
    match a
    case LoaderDo(l) => LoaderKeepsForeign(s.w, x, l, s'.w);
    case RecoveryDo(p, q) => RecoveryStepForeign(s.w, x, s.recoveries[p], q, s'.w, s'.recoveries[p]);
    case ReceiverDo(p, r) => H.ReceiverMoved(s, p, r, s');
    case _ =>
  }

  /** A configuration that is not one of ours is never overwritten, whatever the loader
      and any number of recoveries do afterwards. */
  lemma {:induction false} ExternalNeverOverwritten(s: State, x: Config, run: seq<Action>)
    requires Foreign(s, x) && IsRun(s, run) && EchoRun(s, run)
    ensures Final(s, run).w.device == x
    decreases |run|
  {
    if run != [] {
      var s' := Next(s, run[0]);
      StepKeepsForeign(s, x, run[0], s');
      ExternalNeverOverwritten(s', x, run[1..]);
    }
  }

  /** The one window left: a loader about to take back a filter the driver did not adopt
      sets the saved configuration without looking again. */
  lemma RollbackOverwrites(s: State, x: Config)
    requires s.w.loader.pc == RollingBack && x != s.w.loader.saved
    ensures var run := [External(x), LoaderDo(Up(Rollback(s.w.loader.saved)))];
            IsRun(s, run) && EchoRun(Next(s, External(x)), run[1..]) && Final(s, run).w.device != x
  {
    var run := [External(x), LoaderDo(Up(Rollback(s.w.loader.saved)))];
    assert run[1..] == [LoaderDo(Up(Rollback(s.w.loader.saved)))] && run[1..][1..] == [];
    var t := Next(s, External(x));
    var u := Next(t, run[1]);
    assert IsRun(u, []) && EchoRun(u, []);
    assert IsRun(t, run[1..]) && Final(t, run[1..]) == u;
  }

  /** Whatever is done after somebody set `x` at `s`, the device keeps `x`. */
  ghost predicate Survives(s: State, x: Config) {
    var t := Next(s, External(x));
    forall rest | IsRun(t, rest) && EchoRun(t, rest) :: Final(t, rest).w.device == x
  }

  lemma ForeignWhenSet(s: State, o: Config, x: Config)
    requires R.Conf(s, o) && s.w.loader.pc !in {Starting, RollingBack} && !R.Known(x, o)
    ensures Foreign(Next(s, External(x)), x)
  {
    var t := Next(s, External(x));
    forall p | p in t.recoveries
      ensures ForeignToCopy(t.recoveries[p], x)
    {
      assert R.RecoveryConf(s.w, o, s.recoveries[p]);
    }
  }

  /** The exact condition for a configuration that is neither the original nor the requested
      one, set at any point of a clean run once the original is captured: it survives
      everything that happens afterwards if and only if the loader is not just then taking
      back a filter. */
  lemma ExternalSurvivesExactly(o: Config, before: seq<Action>, x: Config)
    requires IsRun(Init(o), before) && R.CleanRun(Init(o), o, before) && !R.Known(x, o)
    requires Final(Init(o), before).w.loader.pc != Starting
    ensures var s := Final(Init(o), before); Survives(s, x) <==> s.w.loader.pc != RollingBack
  {
    var s := Final(Init(o), before);
    var t := Next(s, External(x));
    R.CleanRunKeepsConf(Init(o), o, before);
    if s.w.loader.pc == RollingBack {
      RollbackOverwrites(s, x);
      var run := [External(x), LoaderDo(Up(Rollback(s.w.loader.saved)))];
      assert run[0] == External(x) && Final(t, run[1..]) == Final(s, run);
    } else {
      ForeignWhenSet(s, o, x);
      forall rest | IsRun(t, rest) && EchoRun(t, rest)
        ensures Final(t, rest).w.device == x
      {
        ExternalNeverOverwritten(t, x, rest);
      }
    }
  }

  /** That window is reached from the start, in a clean run, with every driver that answers
      the request for all packets by what it had. */
  lemma RollbackHappens(o: Config, x: Config) returns (before: seq<Action>)
    requires o.rxFilter != HWTSTAMP_FILTER_ALL && !R.Known(x, o)
    ensures IsRun(Init(o), before) && R.CleanRun(Init(o), o, before)
    ensures var s := Final(Init(o), before); s.w.loader.pc == RollingBack && !Survives(s, x)
  {
    var t;
    before, t := R.ReachPinned(o);
    var more, u := R.ReachVerified(t);
    var last, v := AnswerWithSaved(u);
    Concat(Init(o), before, more);
    Concat(Init(o), before + more, last);
    before := before + more + last;
    forall a | a in before
      ensures R.Innocent(a, o)
    {
    }
    R.InnocentRunIsClean(Init(o), o, before);
    ExternalSurvivesExactly(o, before, x);
  }

  /** The loader announces, and the driver answers with what it had. */
  lemma AnswerWithSaved(s: State) returns (run: seq<Action>, t: State)
    requires s.w.loader.pc == Verified && s.w.device == s.w.loader.saved && s.w.device.rxFilter != HWTSTAMP_FILTER_ALL
    ensures run == [LoaderDo(Up(PublishApplying)), LoaderDo(Up(SetOther(s.w.device)))]
    ensures IsRun(s, run) && Final(s, run) == t && t.w.loader.pc == RollingBack
  {
    run, t := Extend(s, [], s, LoaderDo(Up(PublishApplying)));
    run, t := Extend(s, run, t, LoaderDo(Up(SetOther(s.w.device))));
  }

  // ----- dropping the pins

  predicate LoaderDuties(w: World) {
    var l := w.loader;
    && (l.attached || l.complete ==> l.pinned)
    && (l.pc in {Pinned, Attached, Refreshed, Verified, ApplyPublished, RollingBack, DeviceSet, Ready} ==> l.pinned)
    && (l.attached && l.pc in {AfterDetach, Restoring, Republishing, Unpinning} ==> l.preserve)
    && (l.complete && l.pc in {Restoring, Republishing, Unpinning} && !l.preserve ==> w.exported)
    && (l.pinned && l.pc == Unpinning && !l.preserve ==> !l.active)
    && (l.pc == Republishing ==> !l.active)
    && (l.pinned && l.pc !in {Republishing, Unpinning, Done} ==> l.active)
    && (l.pc in {Starting, Captured} ==> !l.pinned)
    && (l.pc == Captured ==> l.active)
  }

  /** Records are exported only after the detach, and XDP does not come back. */
  predicate ExportLate(w: World) {
    var l := w.loader;
    && (w.exported ==> !w.xdp && l.pc in {AfterDetach, Restoring, Republishing, Unpinning, Done})
    && (l.pc == AfterDetach && !l.attached ==> !w.xdp)
  }

  predicate RecoveryDuties(w: World, q: Recovery) {
    && (q.pc in {QRestoring, QPublishing, QDraining, QCleaning} ==> !w.xdp && w.loader.pc == Done)
    && (q.pc == QCleaning ==> w.exported)
  }

  ghost predicate Duties(s: State) {
    LoaderDuties(s.w) && forall p | p in s.recoveries :: RecoveryDuties(s.w, s.recoveries[p])
  }

  /** XDP is detached, the device restored and the records are out. */
  predicate MayDropPins(s: State, a: Action) {
    && !s.w.xdp
    && (a.LoaderDo? || a.RecoveryDo?)
    && (a.LoaderDo? ==> !s.w.loader.active && (s.w.loader.complete ==> s.w.exported))
    && (a.RecoveryDo? ==> a.p in s.recoveries && !s.recoveries[a.p].stateError && s.w.exported && s.w.loader.pc == Done)
  }

  lemma EarlySetupKeepsDuties(w: World, step: SetupStep, w': World)
    requires LoaderDuties(w) && SetupEnabled(w, step) && w' == SetupNext(w, step)
    requires Early(step)
    ensures LoaderDuties(w')
  {
  }

  lemma LateSetupKeepsDuties(w: World, step: SetupStep, w': World)
    requires LoaderDuties(w) && SetupEnabled(w, step) && w' == SetupNext(w, step)
    requires !Early(step)
    ensures LoaderDuties(w')
  {
  }

  lemma SetupKeepsDuties(w: World, step: SetupStep, w': World)
    requires LoaderDuties(w) && SetupEnabled(w, step) && w' == SetupNext(w, step)
    ensures LoaderDuties(w')
  {
    if Early(step) {
      EarlySetupKeepsDuties(w, step, w');
    } else {
      LateSetupKeepsDuties(w, step, w');
    }
  }

  lemma LeavingKeepsDuties(w: World, step: ExitStep, w': World)
    requires LoaderDuties(w) && ExitEnabled(w, step) && w' == ExitNext(w, step)
    requires Leaving(step)
    ensures LoaderDuties(w')
  {
  }

  lemma LastExitKeepsDuties(w: World, step: ExitStep, w': World)
    requires LoaderDuties(w) && ExitEnabled(w, step) && w' == ExitNext(w, step)
    requires !Leaving(step)
    ensures LoaderDuties(w')
  {
  }

  lemma ExitKeepsDuties(w: World, step: ExitStep, w': World)
    requires LoaderDuties(w) && ExitEnabled(w, step) && w' == ExitNext(w, step)
    ensures LoaderDuties(w')
  {
    if Leaving(step) {
      LeavingKeepsDuties(w, step, w');
    } else {
      LastExitKeepsDuties(w, step, w');
    }
  }

  /** Records once exported stay so, and only the unpinning step drops the pins. */
  lemma LoaderKeepsExport(w: World, step: LoaderStep, w': World)
    requires LoaderEnabled(w, step) && w' == LoaderNext(w, step)
    ensures (w.exported ==> w'.exported) && w.loader.pc != Done
    ensures w.pins && !w'.pins ==> w.loader.pc == Unpinning && w.loader.pinned && !w.loader.preserve && w'.xdp == w.xdp
  {
  }

  lemma LoaderKeepsDuties(w: World, step: LoaderStep, w': World)
    requires LoaderDuties(w) && LoaderEnabled(w, step) && w' == LoaderNext(w, step)
    ensures LoaderDuties(w')
  {
    match step
    case Up(u) => SetupKeepsDuties(w, u, w');
    case Down(d) => ExitKeepsDuties(w, d, w');
  }

  lemma RecoveryStepDuties(w: World, q: Recovery, step: RecoveryStep, w': World, q': Recovery)
    requires H.RecoveryOk(w, q) && RecoveryDuties(w, q) && RecoveryEnabled(w, q, step)
    requires w' == WorldAfterRecovery(w, q, step) && q' == RecoveryNext(w, q, step)
    ensures RecoveryDuties(w', q') && w'.loader == w.loader
    ensures (w.exported ==> w'.exported) && (w'.xdp ==> w.xdp)
    ensures w.pins && !w'.pins ==> q.pc == QCleaning && !q.stateError && w'.xdp == w.xdp
  {
  }

  /** Everything but a loader or recovery step leaves the duties as they are. */
  lemma OtherStepDuties(s: State, a: Action, s': State)
    requires Duties(s) && Enabled(s, a) && s' == Next(s, a) && !a.LoaderDo? && !a.RecoveryDo?
    ensures Duties(s') && s'.w.pins == s.w.pins
  {
    forall o | o in s'.recoveries
      ensures RecoveryDuties(s'.w, s'.recoveries[o])
    {
      assert o in s.recoveries ==> RecoveryDuties(s.w, s.recoveries[o]);
    }
  }

  lemma LoaderStepDuties(s: State, l: LoaderStep, s': State)
    requires H.Inv(s) && Duties(s) && LoaderEnabled(s.w, l) && s' == s.(w := LoaderNext(s.w, l))
    ensures Duties(s')
    ensures s.w.pins && !s'.w.pins ==> MayDropPins(s, LoaderDo(l))
  {
    LoaderKeepsDuties(s.w, l, s'.w);
    LoaderKeepsExport(s.w, l, s'.w);
    forall p | p in s.recoveries
      ensures RecoveryDuties(s'.w, s.recoveries[p])
    {
      assert RecoveryDuties(s.w, s.recoveries[p]) && H.RecoveryOk(s.w, s.recoveries[p]);
    }
  }

  lemma RecoveryDoDuties(s: State, p: Pid, q: RecoveryStep, s': State)
    requires H.Inv(s) && Duties(s) && Enabled(s, RecoveryDo(p, q)) && s' == Next(s, RecoveryDo(p, q))
    ensures Duties(s')
    ensures s.w.pins && !s'.w.pins ==> MayDropPins(s, RecoveryDo(p, q))
  {
    RecoveryStepDuties(s.w, s.recoveries[p], q, s'.w, s'.recoveries[p]);
    forall o | o in s'.recoveries
      ensures RecoveryDuties(s'.w, s'.recoveries[o])
    {
      assert RecoveryDuties(s.w, s.recoveries[o]);
    }
  }

  lemma StepKeepsDuties(s: State, a: Action, s': State)
    requires H.Inv(s) && Duties(s) && Enabled(s, a) && s' == Next(s, a)
    ensures Duties(s')
    ensures s.w.pins && !s'.w.pins ==> MayDropPins(s, a)
  {
    match a
    case LoaderDo(l) => LoaderStepDuties(s, l, s');
    case RecoveryDo(p, q) => RecoveryDoDuties(s, p, q, s');
    case _ => OtherStepDuties(s, a, s');
  }

  lemma {:induction false} RunKeepsDuties(s: State, run: seq<Action>)
    requires H.Inv(s) && Duties(s) && IsRun(s, run)
    ensures H.Inv(Final(s, run)) && Duties(Final(s, run))
    decreases |run|
  {
    if run != [] {
      var s' := Next(s, run[0]);
      H.StepKeepsInv(s, run[0], s');
      StepKeepsDuties(s, run[0], s');
      RunKeepsDuties(s', run[1..]);
    }
  }

  /** The pins go only with XDP detached.  The loader drops them only after its restore
      succeeded and, if the measurement was completed, after the export; a recovery drops
      them only after its restore, its publication and its export succeeded. */
  lemma PinsDroppedOnlyWhenDone(s: State, a: Action)
    requires Reachable(s) && Enabled(s, a) && s.w.pins && !Next(s, a).w.pins
    ensures MayDropPins(s, a)
  {
    var original, run :| IsRun(Init(original), run) && Final(Init(original), run) == s;
    RunKeepsDuties(Init(original), run);
    StepKeepsDuties(s, a, Next(s, a));
  }

  /** In a clean run that includes the device itself: whoever drops the pins, it has the
      configuration it was found with. */
  lemma DeviceRestoredWhenUnpinned(o: Config, before: seq<Action>, a: Action)
    requires IsRun(Init(o), before) && R.CleanRun(Init(o), o, before)
    requires var s := Final(Init(o), before);
             Enabled(s, a) && R.Clean(s, o, a) && s.w.pins && !Next(s, a).w.pins
    ensures var s := Final(Init(o), before); MayDropPins(s, a) && s.w.device == o && Next(s, a).w.device == o
  {
    var s := Final(Init(o), before);
    PinsDroppedOnlyWhenDone(s, a);
    R.CleanRunKeepsConf(Init(o), o, before);
    R.StepKeepsConf(s, o, a, Next(s, a));
    UnpinningLeavesDevice(s, a);
  }

  lemma UnpinningLeavesDevice(s: State, a: Action)
    requires Enabled(s, a) && s.w.pins && !Next(s, a).w.pins
    ensures Next(s, a).w.device == s.w.device
  {
  }

  lemma SetupKeepsExportLate(w: World, step: SetupStep, w': World)
    requires ExportLate(w) && SetupEnabled(w, step) && w' == SetupNext(w, step)
    ensures ExportLate(w')
  {
  }

  lemma ExitKeepsExportLate(w: World, step: ExitStep, w': World)
    requires H.LoaderOk(w) && ExportLate(w) && ExitEnabled(w, step) && w' == ExitNext(w, step)
    ensures ExportLate(w')
  {
  }

  lemma StepKeepsExportLate(s: State, a: Action, s': State)
    requires H.Inv(s) && Duties(s) && ExportLate(s.w) && Enabled(s, a) && s' == Next(s, a)
    ensures ExportLate(s'.w)
  {
    match a
    case LoaderDo(l) =>
      match l {
        case Up(u) => SetupKeepsExportLate(s.w, u, s'.w);
        case Down(d) => ExitKeepsExportLate(s.w, d, s'.w);
      }
    case RecoveryDo(p, q) => RecoveryKeepsExportLate(s, p, q, s');
    case _ =>
  }

  lemma RecoveryKeepsExportLate(s: State, p: Pid, q: RecoveryStep, s': State)
    requires H.RecoveriesOk(s) && Duties(s) && ExportLate(s.w) && Enabled(s, RecoveryDo(p, q)) && s' == Next(s, RecoveryDo(p, q))
    ensures ExportLate(s'.w)
  {
    assert RecoveryDuties(s.w, s.recoveries[p]) && H.RecoveryOk(s.w, s.recoveries[p]);
  }

  lemma {:induction false} RunKeepsExportLate(s: State, run: seq<Action>)
    requires H.Inv(s) && Duties(s) && ExportLate(s.w) && IsRun(s, run)
    ensures ExportLate(Final(s, run).w)
    decreases |run|
  {
    if run != [] {
      var s' := Next(s, run[0]);
      H.StepKeepsInv(s, run[0], s');
      StepKeepsDuties(s, run[0], s');
      StepKeepsExportLate(s, run[0], s');
      RunKeepsExportLate(s', run[1..]);
    }
  }

  /** Whatever has been exported was exported after the detach: no frame is classified and no
      receiver registered any more. */
  lemma ExportedAfterDetach(s: State)
    requires Reachable(s) && s.w.exported
    ensures !s.w.xdp && s.xskmap == map[]
  {
    var original, run :| IsRun(Init(original), run) && Final(Init(original), run) == s;
    RunKeepsExportLate(Init(original), run);
    H.NeverDetachedUnderReceiver(s);
  }
}
