/** The lifecycle protocol does what it is for: a receiver that finds a loader ready can
    register and leave again, and a loader that is left by its receivers finishes its run. */
module LifecycleProgress {
  import opened Hwtstamp
  import opened Lifecycle
  import H = LifecycleHandshake
  import L = LifecycleLiveness
  import R = LifecycleRecovery

  // ----- what a loader that is ready has published

  predicate SettingUp(pc: LoaderPc) {
    pc in {Starting, Captured, Pinned, Attached, Refreshed, Verified, ApplyPublished, RollingBack, DeviceSet, Ready}
  }

  predicate ReadyOk(w: World) {
    var l := w.loader;
    && (SettingUp(l.pc) ==> !l.mem.stopping && !l.complete && !l.preserve)
    && (l.pc == DeviceSet ==> l.effective.rxFilter == HWTSTAMP_FILTER_ALL)
    && (l.pc == Ready ==> w.rt == l.mem && RuntimeUsable(w.rt) && w.rt.saved == l.saved && w.rt.effective == l.effective)
  }

  lemma SetupKeepsReady(w: World, step: SetupStep, w': World)
    requires ReadyOk(w) && SetupEnabled(w, step) && w' == SetupNext(w, step)
    ensures ReadyOk(w')
  {
  }

  lemma ExitKeepsReady(w: World, step: ExitStep, w': World)
    requires ExitEnabled(w, step) && w' == ExitNext(w, step)
    ensures !SettingUp(w'.loader.pc)
  {
  }

  lemma StepKeepsReady(s: State, a: Action, s': State)
    requires H.Inv(s) && ReadyOk(s.w) && Enabled(s, a) && s' == Next(s, a)
    ensures ReadyOk(s'.w)
  {
    match a
    case LoaderDo(l) =>
      match l {
        case Up(u) => SetupKeepsReady(s.w, u, s'.w);
        case Down(d) => ExitKeepsReady(s.w, d, s'.w);
      }
    case RecoveryDo(p, q) => RecoveryKeepsReady(s, p, q, s');
    case _ =>
  }

  /** A recovery that writes anything does so after its loader's death. */
  lemma RecoveryKeepsReady(s: State, p: Pid, q: RecoveryStep, s': State)
    requires H.RecoveriesOk(s) && ReadyOk(s.w) && Enabled(s, RecoveryDo(p, q)) && s' == Next(s, RecoveryDo(p, q))
    ensures ReadyOk(s'.w)
  {
    assert H.RecoveryOk(s.w, s.recoveries[p]);
  }

  lemma {:induction false} RunKeepsReady(s: State, run: seq<Action>)
    requires H.Inv(s) && ReadyOk(s.w) && IsRun(s, run)
    ensures ReadyOk(Final(s, run).w)
    decreases |run|
  {
    if run != [] {
      var s' := Next(s, run[0]);
      H.StepKeepsInv(s, run[0], s');
      StepKeepsReady(s, run[0], s');
      RunKeepsReady(s', run[1..]);
    }
  }

  /** In every reachable state a loader that is ready has published a record that receivers
      can use, with the very configurations it remembers, and XDP is attached. */
  lemma ReadyIsUsable(s: State)
    requires Reachable(s) && s.w.loader.pc == Ready
    ensures RuntimeUsable(s.w.rt) && s.w.xdp && s.w.rt.saved == s.w.loader.saved && s.w.rt.effective == s.w.loader.effective
  {
    var original, run :| IsRun(Init(original), run) && Final(Init(original), run) == s;
    RunKeepsReady(Init(original), run);
    H.RunKeepsInv(Init(original), run);
  }

  // ----- a receiver's life

  /** Nothing but receiver p, its claim and its registration differs. */
  ghost predicate OnlyReceiver(s: State, p: Pid, t: State, pc: ReceiverPc) {
    && t.w == s.w && t.recoveries == s.recoveries
    && p in s.receivers && t.receivers.Keys == s.receivers.Keys
    && (forall o | o in s.receivers && o != p :: t.receivers[o] == s.receivers[o])
    && t.receivers[p].queue == s.receivers[p].queue && t.receivers[p].pc == pc
  }

  lemma Registers(s: State, p: Pid) returns (run: seq<Action>, t: State)
    requires RuntimeUsable(s.w.rt) && s.w.xdp && s.w.loader.pc != Done
    requires p in s.receivers && s.receivers[p].pc == Opened
    requires s.receivers[p].queue !in s.owners && s.receivers[p].queue !in s.xskmap
    ensures IsRun(s, run) && Final(s, run) == t && OnlyReceiver(s, p, t, Registered)
    ensures t.xskmap == s.xskmap[s.receivers[p].queue := p] && t.owners == s.owners[s.receivers[p].queue := p]
  {
    run, t := Extend(s, [], s, ReceiverDo(p, ReadRuntime));
    run, t := Extend(s, run, t, ReceiverDo(p, Claim));
    run, t := Extend(s, run, t, ReceiverDo(p, RecheckSame));
    run, t := AfterRecheck(s, run, t, p);
  }

  lemma AfterRecheck(s: State, before: seq<Action>, t: State, p: Pid) returns (run: seq<Action>, u: State)
    requires IsRun(s, before) && Final(s, before) == t && t.w.loader.pc != Done && t.w.xdp
    requires p in t.receivers && t.receivers[p].pc == Rechecked && t.receivers[p].queue !in t.xskmap
    ensures IsRun(s, run) && Final(s, run) == u && OnlyReceiver(t, p, u, Registered)
    ensures u.xskmap == t.xskmap[t.receivers[p].queue := p] && u.owners == t.owners
  {
    run, u := Extend(s, before, t, ReceiverDo(p, CheckLoader));
    run, u := Extend(s, run, u, ReceiverDo(p, CheckAttached));
    run, u := Extend(s, run, u, ReceiverDo(p, Register));
  }

  /** A receiver that has just started, beside a loader that is ready, can register whenever
      nobody claims its queue. */
  lemma ReceiverCanRegister(s: State, p: Pid) returns (run: seq<Action>)
    requires Reachable(s) && s.w.loader.pc == Ready
    requires p in s.receivers && s.receivers[p].pc == Opened && s.receivers[p].queue !in s.owners
    ensures IsRun(s, run)
    ensures var t := Final(s, run);
            && OnlyReceiver(s, p, t, Registered)
            && t.xskmap == s.xskmap[s.receivers[p].queue := p] && t.owners == s.owners[s.receivers[p].queue := p]
  {
    ReadyIsUsable(s);
    H.NeverDetachedUnderReceiver(s);
    var t;
    run, t := Registers(s, p);
  }

  /** A registered receiver can leave by its own steps, whatever the loader does, and takes
      its claim and its registration with it. */
  lemma ReceiverCanLeave(s: State, p: Pid) returns (run: seq<Action>)
    requires Reachable(s) && p in s.receivers && s.receivers[p].pc == Registered
    ensures IsRun(s, run)
    ensures var t := Final(s, run);
            && OnlyReceiver(s, p, t, Gone)
            && t.owners == s.owners - {s.receivers[p].queue} && t.xskmap == s.xskmap - {s.receivers[p].queue}
  {
    H.ReachableInv(s);
    assert H.Protected(s.receivers[p]) && H.Owns(s, p);
    OnlyOwnEntry(s, p);
    var t;
    run, t := Closes(s, p);
    run, t := Releases(s, run, t, p);
  }

  lemma Closes(s: State, p: Pid) returns (run: seq<Action>, t: State)
    requires p in s.receivers && s.receivers[p].pc == Registered
    ensures IsRun(s, run) && Final(s, run) == t && OnlyReceiver(s, p, t, Closed)
    ensures t.owners == s.owners && t.xskmap == Unregister(s.xskmap, p)
  {
    run, t := Extend(s, [], s, ReceiverDo(p, StopCapture));
    run, t := Extend(s, run, t, ReceiverDo(p, CloseSocket));
  }

  lemma Releases(s: State, before: seq<Action>, t: State, p: Pid) returns (run: seq<Action>, u: State)
    requires IsRun(s, before) && Final(s, before) == t
    requires p in t.receivers && t.receivers[p].pc == Closed && H.Owns(t, p)
    ensures IsRun(s, run) && Final(s, run) == u && OnlyReceiver(t, p, u, Gone)
    ensures u.owners == t.owners - {t.receivers[p].queue} && u.xskmap == t.xskmap
  {
    run, u := Extend(s, before, t, ReceiverDo(p, LookupOwn));
    run, u := Extend(s, run, u, ReceiverDo(p, DeleteClaim));
  }

  lemma OnlyOwnEntry(s: State, p: Pid)
    requires H.Regs(s) && p in s.receivers && s.receivers[p].pc == Registered
    ensures Unregister(s.xskmap, p) == s.xskmap - {s.receivers[p].queue}
  {
  }

  // ----- the loader's run

  /** From the start to a loader that is ready, with a driver that adopts the request. */
  lemma ReachReady(o: Config) returns (run: seq<Action>, t: State)
    ensures IsRun(Init(o), run) && Final(Init(o), run) == t && R.CleanRun(Init(o), o, run)
    ensures t.w.loader.pc == Ready && t.w.device == Requested(o) && t.w.pins
    ensures t.owners == map[] && t.xskmap == map[] && t.receivers == map[] && t.recoveries == map[]
  {
    run, t := R.ReachPinned(o);
    var s := Init(o);
    var more, u := R.ReachVerified(t);
    Concat(s, run, more);
    run, t := run + more, u;
    run, t := AnnounceAndSet(s, run, t);
    R.InnocentRunIsClean(s, o, run);
  }

  lemma AnnounceAndSet(s: State, before: seq<Action>, t: State) returns (run: seq<Action>, u: State)
    requires IsRun(s, before) && Final(s, before) == t && t.w.loader.pc == Verified && t.w.device == t.w.loader.saved
    ensures run == before + [LoaderDo(Up(PublishApplying))] + [LoaderDo(Up(SetAll(Requested(t.w.loader.saved))))] + [LoaderDo(Up(PublishApplied))]
    ensures IsRun(s, run) && Final(s, run) == u && u == t.(w := u.w)
    ensures u.w.loader.pc == Ready && u.w.device == Requested(t.w.loader.saved) && u.w.pins == t.w.pins
  {
    run, u := Extend(s, before, t, LoaderDo(Up(PublishApplying)));
    run, u := Extend(s, run, u, LoaderDo(Up(SetAll(Requested(t.w.loader.saved)))));
    run, u := Extend(s, run, u, LoaderDo(Up(PublishApplied)));
  }

  /** From the start, for every original configuration, receiver and queue, the handshake can
      end with that receiver registered. */
  lemma RegistrationHappens(o: Config, p: Pid, queue: Queue) returns (run: seq<Action>)
    ensures IsRun(Init(o), run)
    ensures var t := Final(Init(o), run); t.xskmap == map[queue := p] && t.w.xdp && t.w.loader.pc == Ready
  {
    var t;
    run, t := ReachReady(o);
    run, t := Extend(Init(o), run, t, SpawnReceiver(p, queue));
    var more := ReceiverCanRegister(t, p);
    Concat(Init(o), run, more);
    run := run + more;
    ReadyIsUsable(t);
  }

  // ----- the loader's end

  /** Only the scan has moved on, and claims are gone. */
  ghost predicate Scanned(s: State, t: State) {
    && t.w == s.w.(loader := s.w.loader.(pc := t.w.loader.pc))
    && t.receivers == s.receivers && t.xskmap == s.xskmap && t.recoveries == s.recoveries
  }

  lemma ScannedOn(s: State, t: State, u: State)
    requires Scanned(s, t) && Scanned(t, u)
    ensures Scanned(s, u)
  {
  }

  /** The loader's scan over dead claims, to its end. */
  lemma {:induction false} LoaderSweeps(s: State) returns (run: seq<Action>, t: State)
    requires Sweeping(s)
    ensures IsRun(s, run) && Final(s, run) == t && Scanned(s, t) && t.w.loader.pc == Scanning(Clear)
    decreases ToSweep(s)
  {
    if s.w.loader.pc.scan == Clear {
      run, t := [], s;
    } else {
      var a, u := LoaderScansOn(s);
      var rest;
      rest, t := LoaderSweeps(u);
      Prepend(s, a, rest);
      run := [a] + rest;
      ScannedOn(s, u, t);
    }
  }

  lemma LoaderScansOn(s: State) returns (a: Action, t: State)
    requires Sweeping(s) && s.w.loader.pc.scan != Clear
    ensures Enabled(s, a) && t == Next(s, a) && Scanned(s, t) && Sweeping(t) && 0 <= ToSweep(t) < ToSweep(s)
  {
    var c := L.ScanGoesOn(s, s.w.loader.pc.scan);
    a, t := LoaderScans(c), Next(s, LoaderScans(c));
    LoaderScanFalls(s, c, t);
  }

  ghost predicate Sweeping(s: State) {
    s.w.loader.pc.Scanning? && L.ScanSane(s.owners, s.w.loader.pc.scan) && L.ClaimantsDead(s)
  }

  function ToSweep(s: State): int
    requires s.w.loader.pc.Scanning?
  {
    L.ScanLeft(|s.owners|, s.w.loader.pc.scan)
  }

  lemma LoaderScanFalls(s: State, c: ScanStep, t: State)
    requires s.w.loader.pc.Scanning? && L.ScanSane(s.owners, s.w.loader.pc.scan) && L.ClaimantsDead(s) && !c.ScanError?
    requires Enabled(s, LoaderScans(c)) && t == Next(s, LoaderScans(c))
    ensures t.w.loader.pc.Scanning? && L.ScanSane(t.owners, t.w.loader.pc.scan) && L.ClaimantsDead(t)
    ensures Scanned(s, t)
    ensures 0 <= L.ScanLeft(|t.owners|, t.w.loader.pc.scan) < L.ScanLeft(|s.owners|, s.w.loader.pc.scan)
  {
    var scan := s.w.loader.pc.scan;
    if scan.HaveKey? || scan.HaveOwner? || scan.Deleting? {
      assert (s.owners - {scan.key}).Keys == s.owners.Keys - {scan.key};
    }
  }

  /** The ordinary end of a measurement: STOPPING, a clear scan, detach, export, restore and
      unpinning.  From every clean state with a ready loader whose claimants are gone it is
      open, and it leaves the device as it was found. */
  lemma LoaderCanFinish(o: Config, before: seq<Action>, s: State) returns (run: seq<Action>)
    requires IsRun(Init(o), before) && R.CleanRun(Init(o), o, before) && s == Final(Init(o), before)
    requires s.w.loader.pc == Ready && L.ClaimantsDead(s)
    ensures IsRun(s, run)
    ensures var t := Final(s, run);
            t.w.device == o && L.Recovered(t.w) && t.w.loader.pc == Done && t.w.loader.complete && t.w.rt.stopping
  {
    R.CleanRunKeepsConf(Init(o), o, before);
    H.RunKeepsInv(Init(o), before);
    RunKeepsReady(Init(o), before);
    var t;
    run, t := Extend(s, [], s, LoaderDo(Up(Complete)));
    run, t := Extend(s, run, t, LoaderDo(Down(PublishStopping)));
    var sweep, u := LoaderSweeps(t);
    Concat(s, run, sweep);
    run, t := run + sweep, u;
    run, t := EndsWell(s, run, t, o);
  }

  lemma EndsWell(s: State, before: seq<Action>, t: State, o: Config) returns (run: seq<Action>, u: State)
    requires IsRun(s, before) && Final(s, before) == t && t.w.loader.pc == Scanning(Clear)
    requires t.w.loader.complete && t.w.loader.active && t.w.loader.pinned && !t.w.loader.preserve && t.w.rt.stopping
    requires t.w.loader.saved == o && MayRestore(t.w.device, o, t.w.loader.effective, true)
    ensures IsRun(s, run) && Final(s, run) == u
    ensures u.w.device == o && L.Recovered(u.w) && u.w.loader.pc == Done && u.w.loader.complete && u.w.rt.stopping
  {
    run, u := Extend(s, before, t, LoaderDo(Down(Detach)));
    run, u := Extend(s, run, u, LoaderDo(Down(ExportDone)));
    run, u := Extend(s, run, u, LoaderDo(Down(RestoreDone(o))));
    run, u := Extend(s, run, u, LoaderDo(Down(Unpin)));
  }
}
