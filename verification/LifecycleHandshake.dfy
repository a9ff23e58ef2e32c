/** The STOPPING handshake: in every interleaving XDP stays attached for as long as a
    receiver socket is registered. */
module LifecycleHandshake {
  import opened Lifecycle

  /** A receiver that passed its second look at the runtime and has not closed its socket. */
  predicate Protected(r: Receiver) {
    r.pc in {Rechecked, LoaderSeen, Vetted, Registered, Stopping}
  }

  /** A receiver that believes its queue claim is in the map. */
  predicate Claiming(r: Receiver) {
    Protected(r) || r.pc in {Claimed, Closed, Releasing}
  }

  predicate Owns(s: State, p: Pid)
    requires p in s.receivers
  {
    s.receivers[p].queue in s.owners && s.owners[s.receivers[p].queue] == p
  }

  ghost predicate NoneProtected(s: State) {
    forall p | p in s.receivers :: !Protected(s.receivers[p])
  }

  ghost predicate NoneProtectedOn(s: State, k: Queue) {
    forall p | p in s.receivers && Protected(s.receivers[p]) :: s.receivers[p].queue != k
  }

  /** What a scan has established about the protected receivers at each of its points. */
  ghost predicate ScanOk(s: State, scan: Scan) {
    && s.w.rt.stopping
    && (scan.HaveOwner? ==>
          forall p | p in s.receivers && Protected(s.receivers[p]) && s.receivers[p].queue == scan.key :: p == scan.owner)
    && (scan.Deleting? ==> NoneProtectedOn(s, scan.key))
    && (scan.Clear? ==> NoneProtected(s))
  }

  // ----- the inductive invariant, clause by clause

  ghost predicate ClaimsHeld(s: State) {
    && (forall p | p in s.receivers && Protected(s.receivers[p]) :: Owns(s, p) && s.w.xdp)
    && (!s.w.rt.stopping ==> forall p | p in s.receivers && Claiming(s.receivers[p]) :: Owns(s, p))
  }

  ghost predicate ReleasesSafe(s: State) {
    forall p | p in s.receivers && s.receivers[p].pc == Releasing :: NoneProtectedOn(s, s.receivers[p].queue)
  }

  ghost predicate ScansOk(s: State) {
    && (s.w.loader.pc.Scanning? ==> ScanOk(s, s.w.loader.pc.scan))
    && (forall p | p in s.recoveries && s.recoveries[p].pc.QSweeping? :: ScanOk(s, s.recoveries[p].pc.scan))
  }

  ghost predicate Regs(s: State) {
    && (forall q | q in s.xskmap ::
          && s.xskmap[q] in s.receivers
          && s.receivers[s.xskmap[q]].queue == q
          && s.receivers[s.xskmap[q]].pc in {Registered, Stopping})
    && (forall p | p in s.receivers && s.receivers[p].pc in {Registered, Stopping} ::
          s.receivers[p].queue in s.xskmap && s.xskmap[s.receivers[p].queue] == p)
  }

  /** A record receivers may go by: the filter is in place, nothing is being changed, and the
      loader is not leaving. */
  predicate UsedRecord(rt: Runtime) {
    rt.applied && !rt.applying && !rt.stopping && rt.effective.rxFilter == 1
  }

  ghost predicate FirstLooks(s: State) {
    forall p | p in s.receivers && (s.receivers[p].pc in {HasRuntime, Claimed} || Protected(s.receivers[p])) ::
      UsedRecord(s.receivers[p].first)
  }

  predicate LoaderOk(w: World) {
    var l := w.loader;
    && (l.pc != Done ==> l.attached == w.xdp)
    && (l.pc != Done && w.rt.stopping ==> l.mem.stopping)
    && (l.pc in {Starting, Captured} ==> !l.attached && !l.pinned && !w.rt.stopping)
    && (l.pc in {Attached, Refreshed, Verified, ApplyPublished, RollingBack, DeviceSet, Ready} ==> l.attached)
    && (l.pc.Scanning? ==> l.attached && w.rt.stopping)
    && (l.attached || l.pc == Pinned ==> l.pinned)
    && (w.rt.applied && !w.rt.stopping ==> w.xdp)
  }

  /** A recovery acts only once the loader is gone, and from then on STOPPING is up. */
  predicate RecoveryOk(w: World, q: Recovery) {
    && (q.pc !in {QReading, QHasCopy, QFinished} ==> w.loader.pc == Done)
    && (q.pc !in {QReading, QHasCopy, QChecked, QFinished} ==> w.rt.stopping && q.copy.stopping)
  }

  ghost predicate RecoveriesOk(s: State) {
    forall p | p in s.recoveries :: RecoveryOk(s.w, s.recoveries[p])
  }

  ghost predicate Inv(s: State) {
    && ClaimsHeld(s) && ReleasesSafe(s) && Regs(s) && FirstLooks(s)
    && ScansOk(s) && LoaderOk(s.w) && RecoveriesOk(s)
  }

  // ----- receiver steps

  /** One receiver moved; everything but the receivers and their two maps is untouched. */
  ghost predicate Moved(s: State, p: Pid, s': State) {
    && s'.w == s.w && s'.recoveries == s.recoveries
    && p in s.receivers && p in s'.receivers && s'.receivers == s.receivers[p := s'.receivers[p]]
    && s'.receivers[p].queue == s.receivers[p].queue
  }

  lemma ReceiverMoved(s: State, p: Pid, step: ReceiverStep, s': State)
    requires Enabled(s, ReceiverDo(p, step)) && s' == Next(s, ReceiverDo(p, step))
    ensures Moved(s, p, s')
  {
  }

  lemma ProtectedStayClaimed(s: State, p: Pid, step: ReceiverStep, s': State, o: Pid)
    requires ClaimsHeld(s) && ReleasesSafe(s) && FirstLooks(s) && LoaderOk(s.w)
    requires ReceiverEnabled(s, p, step) && Moved(s, p, s')
    requires s'.receivers[p] == ReceiverNext(s.receivers[p], s.w.rt, step)
    requires s'.owners == OwnersAfterReceiver(s.owners, p, s.receivers[p], step)
    requires o in s'.receivers && Protected(s'.receivers[o])
    ensures Owns(s', o) && s'.w.xdp
  {
    assert Claiming(s.receivers[o]);
    assert Owns(s, o) && s.w.xdp;
    if step == DeleteClaim {
      assert NoneProtectedOn(s, s.receivers[p].queue);
    }
  }

  lemma ClaimingStayClaimed(s: State, p: Pid, step: ReceiverStep, s': State, o: Pid)
    requires ClaimsHeld(s) && !s.w.rt.stopping && ReceiverEnabled(s, p, step) && Moved(s, p, s')
    requires s'.receivers[p] == ReceiverNext(s.receivers[p], s.w.rt, step)
    requires s'.owners == OwnersAfterReceiver(s.owners, p, s.receivers[p], step)
    requires o in s'.receivers && Claiming(s'.receivers[o])
    ensures Owns(s', o)
  {
    if o != p {
      assert Owns(s, o);
      assert step == DeleteClaim ==> Owns(s, p);
    }
  }

  lemma ReceiverKeepsClaims(s: State, p: Pid, step: ReceiverStep, s': State)
    requires ClaimsHeld(s) && ReleasesSafe(s) && FirstLooks(s) && LoaderOk(s.w)
    requires ReceiverEnabled(s, p, step) && Moved(s, p, s')
    requires s'.receivers[p] == ReceiverNext(s.receivers[p], s.w.rt, step)
    requires s'.owners == OwnersAfterReceiver(s.owners, p, s.receivers[p], step)
    ensures ClaimsHeld(s') && FirstLooks(s')
  {
    forall o | o in s'.receivers && Protected(s'.receivers[o])
      ensures Owns(s', o) && s'.w.xdp
    {
      ProtectedStayClaimed(s, p, step, s', o);
    }
    forall o | o in s'.receivers && Claiming(s'.receivers[o]) && !s.w.rt.stopping
      ensures Owns(s', o)
    {
      ClaimingStayClaimed(s, p, step, s', o);
    }
  }

  lemma ReceiverKeepsReleases(s: State, p: Pid, step: ReceiverStep, s': State)
    requires ClaimsHeld(s) && ReleasesSafe(s) && FirstLooks(s) && ReceiverEnabled(s, p, step) && Moved(s, p, s')
    requires s'.receivers[p] == ReceiverNext(s.receivers[p], s.w.rt, step)
    ensures ReleasesSafe(s')
  {
    forall a, b | a in s'.receivers && s'.receivers[a].pc == Releasing && b in s'.receivers && Protected(s'.receivers[b])
      ensures s'.receivers[b].queue != s'.receivers[a].queue
    {
      if a != p && b != p {
        assert NoneProtectedOn(s, s.receivers[a].queue);
      } else if a == p {
        assert Owns(s, b);
      } else if !Protected(s.receivers[b]) {
        assert Owns(s, a) && Owns(s, b);
      }
    }
  }

  /** Once STOPPING is up nobody becomes protected, so what the scans know stays true. */
  lemma ReceiverKeepsScans(s: State, p: Pid, step: ReceiverStep, s': State)
    requires ScansOk(s) && FirstLooks(s) && ReceiverEnabled(s, p, step) && Moved(s, p, s')
    requires s'.receivers[p] == ReceiverNext(s.receivers[p], s.w.rt, step)
    ensures ScansOk(s')
  {
    forall scan | ScanOk(s, scan)
      ensures ScanOk(s', scan)
    {
      forall o | o in s'.receivers && Protected(s'.receivers[o])
        ensures Protected(s.receivers[o]) && s.receivers[o].queue == s'.receivers[o].queue
      {
      }
    }
  }

  lemma ReceiverKeepsRegs(s: State, p: Pid, step: ReceiverStep, s': State)
    requires Regs(s) && ReceiverEnabled(s, p, step) && Moved(s, p, s')
    requires s'.receivers[p] == ReceiverNext(s.receivers[p], s.w.rt, step)
    requires s'.xskmap == XskmapAfterReceiver(s.xskmap, p, s.receivers[p], step)
    ensures Regs(s')
  {
  }

  lemma ReceiverKeepsInv(s: State, p: Pid, step: ReceiverStep, s': State)
    requires Inv(s) && Enabled(s, ReceiverDo(p, step)) && s' == Next(s, ReceiverDo(p, step))
    ensures Inv(s')
  {
    ReceiverMoved(s, p, step, s');
    ReceiverKeepsClaims(s, p, step, s');
    ReceiverKeepsReleases(s, p, step, s');
    ReceiverKeepsRegs(s, p, step, s');
    ReceiverKeepsScans(s, p, step, s');
  }

  // ----- steps that leave the receivers alone

  /** Nothing happened to the receivers, their claims or their registrations; STOPPING did
      not go down, and XDP went down only with nobody protected. */
  ghost predicate Quiet(s: State, s': State) {
    && s'.receivers == s.receivers && s'.xskmap == s.xskmap && s'.owners == s.owners
    && (s.w.rt.stopping ==> s'.w.rt.stopping)
    && (s.w.xdp && !s'.w.xdp ==> NoneProtected(s))
  }

  lemma QuietKeepsScan(s: State, s': State, scan: Scan)
    requires Quiet(s, s') && ScanOk(s, scan)
    ensures ScanOk(s', scan)
  {
  }

  lemma QuietKeepsClaims(s: State, s': State)
    requires Quiet(s, s') && ClaimsHeld(s) && ReleasesSafe(s) && Regs(s) && FirstLooks(s)
    ensures ClaimsHeld(s') && ReleasesSafe(s') && Regs(s') && FirstLooks(s')
  {
    forall p | p in s.receivers && Protected(s.receivers[p])
      ensures Owns(s', p) && s'.w.xdp
    {
      assert Owns(s, p) && s.w.xdp;
    }
    forall p | p in s.receivers && Owns(s, p)
      ensures Owns(s', p)
    {
    }
  }

  /** A scan may delete a claim, but never one that protects a receiver. */
  lemma ScanKeepsClaims(s: State, s': State, scan: Scan, step: ScanStep)
    requires ClaimsHeld(s) && ReleasesSafe(s) && ScanOk(s, scan) && ScanEnabled(s, scan, step)
    requires s'.receivers == s.receivers && s'.w.rt == s.w.rt && s'.w.xdp == s.w.xdp
    requires s'.owners == OwnersAfterScan(s, scan, step)
    ensures ClaimsHeld(s') && ReleasesSafe(s') && ScanOk(s', ScanNext(s, scan, step))
  {
    forall p | p in s.receivers && Protected(s.receivers[p])
      ensures Owns(s', p)
    {
      assert Owns(s, p);
    }
  }

  /** The scan says what it finds: "live" only of a claim that is there, "clear" only of an empty
      map, and it deletes or passes over a claim only after finding its owner dead or it gone. */
  lemma ScanIsTruthful(s: State, scan: Scan, step: ScanStep)
    requires ScanEnabled(s, scan, step)
    ensures var next := ScanNext(s, scan, step);
            && (next == Live ==> scan.Confirming? && scan.key in s.owners)
            && (next == Clear ==> s.owners == map[])
            && (next.Deleting? ==> scan.HaveOwner? && next.key == scan.key && !Alive(s, scan.owner))
            && (next.Confirming? ==> scan.HaveOwner? && next.key == scan.key && Alive(s, scan.owner))
            && (next == AtTop && (scan.HaveKey? || scan.Confirming?) ==> scan.key !in s.owners)
            && (next.HaveOwner? ==> scan.HaveKey? && next.key == scan.key && next.key in s.owners && next.owner == s.owners[next.key])
            && (next.HaveKey? ==> next.key in s.owners)
    ensures OwnersAfterScan(s, scan, step) == if scan.Deleting? && step == Delete then s.owners - {scan.key} else s.owners
  {
  }

  /** What a scan believes depends on the receivers and STOPPING only. */
  lemma ScanOkFrame(s: State, s': State, scan: Scan)
    requires ScanOk(s, scan) && s'.receivers == s.receivers && s'.w.rt == s.w.rt
    ensures ScanOk(s', scan)
  {
  }

  /** A scan step, taken by the loader or by a recovery. */
  lemma ScanStepKeepsInv(s: State, scan: Scan, step: ScanStep, s': State)
    requires Inv(s) && ScanOk(s, scan) && ScanEnabled(s, scan, step)
    requires s'.receivers == s.receivers && s'.xskmap == s.xskmap && s'.owners == OwnersAfterScan(s, scan, step)
    requires s'.w == s.w.(loader := s.w.loader.(pc := s'.w.loader.pc)) && s'.recoveries.Keys == s.recoveries.Keys
    requires s'.w.loader.pc == s.w.loader.pc || (s.w.loader.pc.Scanning? && s'.w.loader.pc == Scanning(ScanNext(s, scan, step)))
    requires forall p | p in s.recoveries ::
      || s'.recoveries[p] == s.recoveries[p]
      || (s.recoveries[p].pc.QSweeping? && s'.recoveries[p] == s.recoveries[p].(pc := QSweeping(ScanNext(s, scan, step))))
    ensures Inv(s')
  {
    ScanKeepsClaims(s, s', scan, step);
    forall other | ScanOk(s, other)
      ensures ScanOk(s', other)
    {
      ScanOkFrame(s, s', other);
    }
    forall p | p in s'.recoveries
      ensures RecoveryOk(s'.w, s'.recoveries[p])
    {
      assert RecoveryOk(s.w, s.recoveries[p]);
    }
  }

  // ----- loader steps

  lemma SetupStepOk(w: World, step: SetupStep, w': World)
    requires LoaderOk(w) && SetupEnabled(w, step) && w' == SetupNext(w, step)
    ensures LoaderOk(w') && w.loader.pc != Done
    ensures w.rt.stopping ==> w'.rt.stopping
    ensures w.xdp && !w'.xdp ==> w.loader.pc == Scanning(Clear)
    ensures w'.loader.pc.Scanning? ==> w'.loader.pc.scan == AtTop && w'.rt.stopping
  {
  }

  lemma LeavingStepOk(w: World, step: ExitStep, w': World)
    requires LoaderOk(w) && ExitEnabled(w, step) && w' == ExitNext(w, step)
    requires Leaving(step)
    ensures LoaderOk(w') && w.loader.pc != Done
    ensures w.rt.stopping ==> w'.rt.stopping
    ensures w.xdp && !w'.xdp ==> w.loader.pc == Scanning(Clear)
    ensures w'.loader.pc.Scanning? ==> w'.loader.pc.scan == AtTop && w'.rt.stopping
  {
  }

  lemma LastExitStepOk(w: World, step: ExitStep, w': World)
    requires LoaderOk(w) && ExitEnabled(w, step) && w' == ExitNext(w, step)
    requires !Leaving(step)
    ensures LoaderOk(w') && w.loader.pc != Done
    ensures w.rt.stopping ==> w'.rt.stopping
    ensures w.xdp && !w'.xdp ==> w.loader.pc == Scanning(Clear)
    ensures w'.loader.pc.Scanning? ==> w'.loader.pc.scan == AtTop && w'.rt.stopping
  {
  }

  lemma ExitStepOk(w: World, step: ExitStep, w': World)
    requires LoaderOk(w) && ExitEnabled(w, step) && w' == ExitNext(w, step)
    ensures LoaderOk(w') && w.loader.pc != Done
    ensures w.rt.stopping ==> w'.rt.stopping
    ensures w.xdp && !w'.xdp ==> w.loader.pc == Scanning(Clear)
    ensures w'.loader.pc.Scanning? ==> w'.loader.pc.scan == AtTop && w'.rt.stopping
  {
    if Leaving(step) {
      LeavingStepOk(w, step, w');
    } else {
      LastExitStepOk(w, step, w');
    }
  }

  lemma LoaderStepOk(w: World, step: LoaderStep, w': World)
    requires LoaderOk(w) && LoaderEnabled(w, step) && w' == LoaderNext(w, step)
    ensures LoaderOk(w') && w.loader.pc != Done
    ensures w.rt.stopping ==> w'.rt.stopping
    ensures w.xdp && !w'.xdp ==> w.loader.pc == Scanning(Clear)
    ensures w'.loader.pc.Scanning? ==> w'.loader.pc.scan == AtTop && w'.rt.stopping
  {
    match step
    case Up(u) => SetupStepOk(w, u, w');
    case Down(d) => ExitStepOk(w, d, w');
  }

  lemma LoaderKeepsInv(s: State, step: LoaderStep, s': State)
    requires Inv(s) && LoaderEnabled(s.w, step) && s' == s.(w := LoaderNext(s.w, step))
    ensures Inv(s')
  {
    LoaderStepOk(s.w, step, s'.w);
    QuietKeepsClaims(s, s');
    forall scan | ScanOk(s, scan)
      ensures ScanOk(s', scan)
    {
      QuietKeepsScan(s, s', scan);
    }
    forall p | p in s.recoveries
      ensures RecoveryOk(s'.w, s.recoveries[p])
    {
      assert RecoveryOk(s.w, s.recoveries[p]);
    }
  }

  // ----- recovery steps

  lemma RecoveryStepOk(w: World, q: Recovery, step: RecoveryStep, w': World, q': Recovery)
    requires LoaderOk(w) && RecoveryOk(w, q) && RecoveryEnabled(w, q, step)
    requires w' == WorldAfterRecovery(w, q, step) && q' == RecoveryNext(w, q, step)
    ensures LoaderOk(w') && RecoveryOk(w', q') && w'.loader == w.loader
    ensures w.rt.stopping ==> w'.rt.stopping
    ensures w.xdp && !w'.xdp ==> q.pc == QSweeping(Clear)
    ensures q'.pc.QSweeping? ==> q'.pc.scan == AtTop && w'.rt.stopping
  {
  }

  lemma RecoveryKeepsInv(s: State, p: Pid, step: RecoveryStep, s': State)
    requires Inv(s) && Enabled(s, RecoveryDo(p, step)) && s' == Next(s, RecoveryDo(p, step))
    ensures Inv(s')
  {
    assert s'.receivers == s.receivers && s'.xskmap == s.xskmap && s'.owners == s.owners;
    RecoveryStepOk(s.w, s.recoveries[p], step, s'.w, s'.recoveries[p]);
    QuietKeepsClaims(s, s');
    forall scan | ScanOk(s, scan)
      ensures ScanOk(s', scan)
    {
      QuietKeepsScan(s, s', scan);
    }
    forall o | o in s'.recoveries
      ensures RecoveryOk(s'.w, s'.recoveries[o])
      ensures s'.recoveries[o].pc.QSweeping? ==> ScanOk(s', s'.recoveries[o].pc.scan)
    {
      assert RecoveryOk(s.w, s.recoveries[o]);
    }
  }

  // ----- arrivals and outside changes

  lemma ArrivalKeepsInv(s: State, a: Action, s': State)
    requires Inv(s) && (a.SpawnRecovery? || a.External?) && Enabled(s, a) && s' == Next(s, a)
    ensures Inv(s')
  {
    QuietKeepsClaims(s, s');
    forall scan | ScanOk(s, scan)
      ensures ScanOk(s', scan)
    {
      QuietKeepsScan(s, s', scan);
    }
    forall o | o in s'.recoveries
      ensures RecoveryOk(s'.w, s'.recoveries[o])
      ensures s'.recoveries[o].pc.QSweeping? ==> ScanOk(s', s'.recoveries[o].pc.scan)
    {
      if o in s.recoveries {
        assert s'.recoveries[o] == s.recoveries[o] && RecoveryOk(s.w, s.recoveries[o]);
      }
    }
  }

  /** A receiver that only just started claims and protects nothing. */
  ghost predicate Started(s: State, p: Pid, r: Receiver, s': State) {
    p !in s.receivers && r.pc == Opened && s' == s.(receivers := s.receivers[p := r])
  }

  lemma StartKeepsClaims(s: State, p: Pid, r: Receiver, s': State)
    requires ClaimsHeld(s) && ReleasesSafe(s) && Started(s, p, r, s')
    ensures ClaimsHeld(s') && ReleasesSafe(s')
  {
    forall o | o in s.receivers && Owns(s, o)
      ensures Owns(s', o)
    {
    }
  }

  lemma StartKeepsRegs(s: State, p: Pid, r: Receiver, s': State)
    requires Regs(s) && FirstLooks(s) && Started(s, p, r, s')
    ensures Regs(s') && FirstLooks(s')
  {
  }

  lemma StartKeepsScan(s: State, p: Pid, r: Receiver, s': State, scan: Scan)
    requires ScanOk(s, scan) && Started(s, p, r, s')
    ensures ScanOk(s', scan)
  {
  }

  lemma SpawnReceiverKeepsInv(s: State, p: Pid, r: Receiver, s': State)
    requires Inv(s) && Started(s, p, r, s')
    ensures Inv(s')
  {
    StartKeepsClaims(s, p, r, s');
    StartKeepsRegs(s, p, r, s');
    forall scan | ScanOk(s, scan)
      ensures ScanOk(s', scan)
    {
      StartKeepsScan(s, p, r, s', scan);
    }
  }

  // ----- every step keeps the invariant

  lemma StepKeepsInv(s: State, a: Action, s': State)
    requires Inv(s) && Enabled(s, a) && s' == Next(s, a)
    ensures Inv(s')
  {
    match a
    case LoaderDo(l) => LoaderKeepsInv(s, l, s');
    case LoaderScans(c) => ScanStepKeepsInv(s, s.w.loader.pc.scan, c, s');
    case ReceiverDo(p, r) => ReceiverKeepsInv(s, p, r, s');
    case RecoveryDo(p, q) => RecoveryKeepsInv(s, p, q, s');
    case RecoveryScans(p, c) => ScanStepKeepsInv(s, s.recoveries[p].pc.scan, c, s');
    case SpawnReceiver(p, queue) => SpawnReceiverKeepsInv(s, p, Receiver(queue, Opened, s.w.rt), s');
    case _ => ArrivalKeepsInv(s, a, s');
  }

  lemma {:induction false} RunKeepsInv(s: State, run: seq<Action>)
    requires Inv(s) && IsRun(s, run)
    ensures Inv(Final(s, run))
    decreases |run|
  {
    if run != [] {
      var s' := Next(s, run[0]);
      StepKeepsInv(s, run[0], s');
      RunKeepsInv(s', run[1..]);
    }
  }

  lemma ReachableInv(s: State)
    requires Reachable(s)
    ensures Inv(s)
  {
    var original, run :| IsRun(Init(original), run) && Final(Init(original), run) == s;
    RunKeepsInv(Init(original), run);
  }

  // ----- the theorems

  /** In every interleaving, with any process dying anywhere: whatever the XSKMAP holds
      belongs to a live receiver whose claim is present and whose XDP program is attached. */
  lemma NeverDetachedUnderReceiver(s: State)
    requires Reachable(s)
    ensures forall q | q in s.xskmap ::
              Alive(s, s.xskmap[q]) && q in s.owners && s.owners[q] == s.xskmap[q] && s.w.xdp
  {
    ReachableInv(s);
    forall q | q in s.xskmap
      ensures Alive(s, s.xskmap[q]) && q in s.owners && s.owners[q] == s.xskmap[q] && s.w.xdp
    {
      assert Protected(s.receivers[s.xskmap[q]]) && Owns(s, s.xskmap[q]);
    }
  }

  /** Whoever is registered went by a record that said: all packets are stamped, nothing is being
      changed, nobody is leaving. */
  lemma RegisteredByUsableRecord(s: State, q: Queue)
    requires Reachable(s) && q in s.xskmap
    ensures s.xskmap[q] in s.receivers && UsedRecord(s.receivers[s.xskmap[q]].first)
  {
    ReachableInv(s);
    assert Protected(s.receivers[s.xskmap[q]]);
  }

  lemma StepAfterStopping(s: State, a: Action, s': State)
    requires Inv(s) && Enabled(s, a) && s' == Next(s, a) && s.w.rt.stopping
    ensures s'.w.rt.stopping
    ensures forall p | p in s'.receivers && Protected(s'.receivers[p]) :: p in s.receivers && Protected(s.receivers[p])
  {
    match a
    case LoaderDo(l) => LoaderStepOk(s.w, l, s'.w);
    case ReceiverDo(p, r) => ReceiverMoved(s, p, r, s');
    case RecoveryDo(p, q) => RecoveryStepOk(s.w, s.recoveries[p], q, s'.w, s'.recoveries[p]);
    case _ =>
  }

  lemma {:induction false} AfterStopping(s: State, run: seq<Action>)
    requires Inv(s) && IsRun(s, run) && s.w.rt.stopping
    ensures var t := Final(s, run);
            Inv(t) && t.w.rt.stopping
            && forall p | p in t.receivers && Protected(t.receivers[p]) :: p in s.receivers && Protected(s.receivers[p])
    decreases |run|
  {
    if run != [] {
      var s' := Next(s, run[0]);
      StepKeepsInv(s, run[0], s');
      StepAfterStopping(s, run[0], s');
      AfterStopping(s', run[1..]);
    }
  }

  /** STOPPING never clears, and from the moment it is up the registered receivers are
      ones that had already passed their second look: a later claim never registers. */
  lemma StoppingIsFinal(s: State, run: seq<Action>)
    requires Reachable(s) && IsRun(s, run) && s.w.rt.stopping
    ensures var t := Final(s, run);
            t.w.rt.stopping && forall q | q in t.xskmap :: t.xskmap[q] in s.receivers && Protected(s.receivers[t.xskmap[q]])
  {
    ReachableInv(s);
    AfterStopping(s, run);
  }

  lemma DetachFindsNobody(s: State, a: Action, s': State)
    requires Inv(s) && Enabled(s, a) && s' == Next(s, a) && s.w.xdp && !s'.w.xdp
    ensures NoneProtected(s) && s.w.rt.stopping
  {
    match a
    case LoaderDo(l) => LoaderStepOk(s.w, l, s'.w);
    case RecoveryDo(p, q) => RecoveryStepOk(s.w, s.recoveries[p], q, s'.w, s'.recoveries[p]);
    case _ =>
  }

  /** The step that takes XDP down finds nobody registered or about to register, and
      nobody ever is again. */
  lemma DetachIsFinal(s: State, a: Action, rest: seq<Action>)
    requires Reachable(s) && Enabled(s, a) && s.w.xdp && !Next(s, a).w.xdp && IsRun(Next(s, a), rest)
    ensures s.xskmap == map[] && Final(Next(s, a), rest).xskmap == map[]
  {
    var s' := Next(s, a);
    ReachableInv(s);
    DetachFindsNobody(s, a, s');
    StepKeepsInv(s, a, s');
    StepAfterStopping(s, a, s');
    AfterStopping(s', rest);
  }
}
