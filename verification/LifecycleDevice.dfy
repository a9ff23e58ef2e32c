/** The loader's and the recovery's steps on the device are the operations of Hwtstamp: every
    call of one of those is a step, or a short run of steps, of the transition system. */
module LifecycleDevice {
  import opened Hwtstamp
  import opened Lifecycle

  /** The loader's variables and the device are what the world says they are. */
  ghost predicate Same(w: World, state: TimestampState, dev: Device)
    reads state, dev
  {
    && w.loader.saved == state.saved && w.loader.effective == state.effective && w.loader.active == state.active
    && w.device == dev.config
  }

  ghost predicate IsPath(w: World, steps: seq<SetupStep>)
    decreases |steps|
  {
    steps == [] || (SetupEnabled(w, steps[0]) && IsPath(SetupNext(w, steps[0]), steps[1..]))
  }

  ghost function End(w: World, steps: seq<SetupStep>): World
    requires IsPath(w, steps)
    decreases |steps|
  {
    if steps == [] then w else End(SetupNext(w, steps[0]), steps[1..])
  }

  /** What a path leaves in the loader's variables and on the device. */
  ghost predicate Leaves(w: World, steps: seq<SetupStep>, device: Config, saved: Config, effective: Config) {
    && IsPath(w, steps)
    && var t := End(w, steps);
       t.device == device && t.loader.saved == saved && t.loader.effective == effective && t.loader.active == w.loader.active
  }

  lemma OneStep(w: World, a: SetupStep)
    requires SetupEnabled(w, a)
    ensures IsPath(w, [a]) && End(w, [a]) == SetupNext(w, a)
  {
    assert [a][1..] == [];
  }

  lemma TwoSteps(w: World, a: SetupStep, b: SetupStep)
    requires SetupEnabled(w, a) && SetupEnabled(SetupNext(w, a), b)
    ensures IsPath(w, [a, b]) && End(w, [a, b]) == SetupNext(SetupNext(w, a), b)
  {
    assert [a, b][1..] == [b];
    OneStep(SetupNext(w, a), b);
  }

  lemma SetsAll(w: World, c: Config)
    requires w.loader.pc == ApplyPublished && w.device == w.loader.saved && c.rxFilter == HWTSTAMP_FILTER_ALL
    ensures Leaves(w, [SetAll(c)], c, w.loader.saved, c)
  {
    OneStep(w, SetAll(c));
  }

  lemma LeavesAlone(w: World, step: SetupStep)
    requires w.loader.pc == ApplyPublished && (step == Abort || (step == SetStale && w.device != w.loader.saved))
    ensures Leaves(w, [step], w.device, w.loader.saved, w.loader.effective)
  {
    OneStep(w, step);
  }

  lemma SetsOther(w: World, c: Config, back: Config)
    requires w.loader.pc == ApplyPublished && w.device == w.loader.saved && c.rxFilter != HWTSTAMP_FILTER_ALL
    ensures Leaves(w, [SetOther(c), SetupStep.Rollback(back)], back, back, back)
    ensures Leaves(w, [SetOther(c), Abort], c, w.loader.saved, c)
  {
    TwoSteps(w, SetOther(c), SetupStep.Rollback(back));
    TwoSteps(w, SetOther(c), Abort);
  }

  /** A successful capture is the Capture step. */
  method CaptureIsStep(state: TimestampState, dev: Device, ghost w: World) returns (outcome: Outcome)
    requires w.loader.pc == Starting && w.device == dev.config
    modifies state
    ensures outcome == Success && SetupEnabled(w, SetupStep.Capture) && Same(SetupNext(w, SetupStep.Capture), state, dev)
  {
    outcome := state.Capture(dev, true);
  }

  /** Preparing is what PublishApplying announces. */
  method PrepareIsStep(state: TimestampState, dev: Device, ghost w: World) returns (outcome: Outcome)
    requires state.Valid() && Same(w, state, dev) && state.active && w.loader.pc == Verified
    modifies state`effective, state`changed
    ensures outcome == Success && SetupEnabled(w, PublishApplying) && Same(SetupNext(w, PublishApplying), state, dev)
  {
    outcome := state.PrepareRxAll();
  }

  /** Applying is SetAll, SetStale, SetOther with its Rollback, or a failed ioctl. */
  method ApplyIsSteps(state: TimestampState, dev: Device, ghost w: World, queryOk: bool, setOk: bool, rollbackOk: bool)
    returns (outcome: Outcome, ghost steps: seq<SetupStep>)
    requires state.Valid() && Same(w, state, dev) && w.loader.pc == ApplyPublished
    modifies state`saved, state`effective, state`changed, dev`config
    ensures state.Valid() && Leaves(w, steps, dev.config, state.saved, state.effective)
    ensures outcome == Success ==> steps == [SetAll(dev.config)]
    ensures outcome == Stale ==> steps == [SetStale]
    ensures outcome == Unsupported ==> steps == [SetOther(dev.adopt(old(state.effective))), SetupStep.Rollback(dev.config)]
    ensures outcome in {Invalid, IoctlFailed} ==> steps == [Abort] || steps == [SetOther(dev.config), Abort]
  {
    outcome := state.ApplyPreparedRxAll(dev, queryOk, setOk, rollbackOk);
    ghost var tried := dev.adopt(old(state.effective));
    if outcome == Success {
      steps := [SetAll(dev.config)];
      SetsAll(w, dev.config);
    } else if outcome == Stale {
      steps := [SetStale];
      LeavesAlone(w, SetStale);
    } else if outcome == Unsupported || (outcome == IoctlFailed && queryOk && setOk) {
      steps := [SetOther(tried), if outcome == Unsupported then SetupStep.Rollback(dev.config) else Abort];
      SetsOther(w, tried, dev.config);
    } else {
      steps := [Abort];
      LeavesAlone(w, Abort);
    }
  }

  lemma RestoresDevice(w: World, adopted: Config)
    requires w.loader.pc == Restoring && !w.loader.attached && w.loader.active && MayRestore(w.device, w.loader.saved, w.loader.effective, true)
    ensures var step := if w.loader.preserve then RestoreKept(adopted) else RestoreDone(adopted);
            && ExitEnabled(w, step)
            && var t := ExitNext(w, step);
               t.device == t.loader.saved == t.loader.effective == adopted && !t.loader.active
  {
  }

  lemma RestoresNothing(w: World, step: ExitStep)
    requires step.RestoreRefused? || step.RestoreIdle?
    requires ExitEnabled(w, step)
    ensures var t := ExitNext(w, step);
            && t.device == w.device && t.loader.saved == w.loader.saved && t.loader.effective == w.loader.effective
            && t.loader.active == w.loader.active
  {
  }

  /** The loader's restore is one of its four restore steps. */
  method RestoreIsStep(state: TimestampState, dev: Device, ghost w: World, queryOk: bool, setOk: bool)
    returns (outcome: Outcome, ghost step: ExitStep)
    requires state.Valid() && Same(w, state, dev) && w.loader.pc == Restoring && !w.loader.attached
    modifies state`saved, state`effective, state`changed, state`active, dev`config
    ensures state.Valid() && ExitEnabled(w, step) && Same(ExitNext(w, step), state, dev)
    ensures outcome == Success <==> step in {RestoreIdle, RestoreDone(dev.config), RestoreKept(dev.config)}
    ensures outcome == Skipped ==> step == RestoreRefused(true)
  {
    outcome := state.RestoreAllowSaved(dev, true, queryOk, setOk);
    if !old(state.active) || outcome != Success {
      step := if !old(state.active) then RestoreIdle else RestoreRefused(outcome == Skipped);
      RestoresNothing(w, step);
    } else {
      step := if w.loader.preserve then RestoreKept(dev.config) else RestoreDone(dev.config);
      RestoresDevice(w, dev.config);
    }
  }

  /** The recovery's restore, from the configurations it read, is one of its two. */
  method RecoverIsStep(state: TimestampState, dev: Device, ghost w: World, ghost q: Recovery, queryOk: bool, setOk: bool)
    returns (outcome: Outcome, ghost step: RecoveryStep)
    requires state.Valid() && state.active && state.saved == q.copy.saved && state.effective == q.copy.effective
    requires q.pc == QRestoring && w.device == dev.config
    modifies state`saved, state`effective, state`changed, state`active, dev`config
    ensures state.Valid() && RecoveryEnabled(w, q, step) && WorldAfterRecovery(w, q, step).device == dev.config
    ensures outcome == Success <==> step == QRestoreDone(dev.config)
    ensures outcome == Skipped ==> step == QRestoreRefused(true)
  {
    outcome := state.RestoreAllowSaved(dev, true, queryOk, setOk);
    step := if outcome == Success then QRestoreDone(dev.config) else QRestoreRefused(outcome == Skipped);
  }
}
