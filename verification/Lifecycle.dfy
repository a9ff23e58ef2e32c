/** The shared-map protocol between the XDP loader, its `--recover` mode and any number
    of AF_XDP receivers (BPF/xdp_loader.c, BPF/afxdp_recv.c).

    Every map operation, attach, detach and device change is one step; any process may
    die between two steps.  Death closes a process's sockets and nothing else.  A
    process is named by its pid together with its start time, so names are never
    reused. */
module Lifecycle {
  import opened Hwtstamp

  type Pid = nat
  type Queue = nat

  /** The part of struct ace_runtime_config that changes while a loader lives. */
  datatype Runtime = Runtime(saved: Config, effective: Config, applying: bool, applied: bool, stopping: bool)

  /** Where a scan of the claims map stands (xsk_owners_have_live_claim). */
  datatype Scan =
    | AtTop | HaveKey(key: Queue) | HaveOwner(key: Queue, owner: Pid)
    | Confirming(key: Queue) | Deleting(key: Queue)
    | Clear | Live | ScanFailed

  datatype ReceiverPc =
    | Opened | HasRuntime | Claimed | Rechecked | LoaderSeen | Vetted | Registered
    | Stopping | Closed | Releasing | Gone

  datatype Receiver = Receiver(queue: Queue, pc: ReceiverPc, first: Runtime)

  datatype LoaderPc =
    | Starting | Captured | Pinned | Attached | Refreshed | Verified | ApplyPublished
    | RollingBack | DeviceSet | Ready
    | Exiting | Scanning(scan: Scan) | AfterDetach | Restoring | Republishing | Unpinning | Done

  /** The loader's own variables: the remembered configurations, its copy of the runtime
      record and the flags that steer its exit path. */
  datatype Loader = Loader(
    pc: LoaderPc, saved: Config, effective: Config, active: bool, mem: Runtime,
    attached: bool, pinned: bool, complete: bool, preserve: bool)

  datatype RecoveryPc =
    | QReading | QHasCopy | QChecked | QSweeping(scan: Scan) | QRestoring | QPublishing
    | QDraining | QCleaning | QFinished

  datatype Recovery = Recovery(pc: RecoveryPc, copy: Runtime, stateError: bool)

  /** Everything the loader and a recovery read and write, apart from the claims. */
  datatype World = World(device: Config, xdp: bool, pins: bool, exported: bool, rt: Runtime, loader: Loader)

  datatype State = State(
    w: World, owners: map<Queue, Pid>, xskmap: map<Queue, Pid>,
    receivers: map<Pid, Receiver>, recoveries: map<Pid, Recovery>)

  // The steps name the branch the code takes; `Enabled` holds the guard of that branch.

  datatype ScanStep =
    | Pick(key: Queue) | NoKeys | Found | Vanished | JudgeAlive | JudgeDead | StillThere | GoneNow | Delete | ScanError

  datatype ReceiverStep =
    | ReadRuntime | Claim | RecheckSame | RecheckChanged | CheckLoader | CheckAttached | Register
    | AbortUnclaimed | AbortClaimed | StopCapture | CloseSocket | LookupOwn | LookupOther | DeleteClaim | ReceiverDies

  /** `adopted` is what the driver made of a set request; `ok` is false for a failed ioctl. */
  datatype SetupStep =
    | Capture | Pin | Attach | VerifySame | VerifyChanged | PublishRefresh | RefreshFailed
    | PublishApplying | ApplyingFailed
    | SetStale | SetAll(adopted: Config) | SetOther(adopted: Config) | Rollback(adopted: Config)
    | PublishApplied | AppliedFailed | Complete | Abort

  datatype ExitStep =
    | PublishStopping | StoppingFailed | Detach | KeepAttached
    | ExportDone | ExportFailed | NotAttached | SkipExport
    | RestoreIdle | RestoreRefused(ok: bool) | RestoreDone(adopted: Config) | RestoreKept(adopted: Config) | SkipRestore
    | PublishRestored | RestoredFailed | Unpin | KeepPins | LoaderDies

  datatype LoaderStep = Up(u: SetupStep) | Down(d: ExitStep)

  datatype RecoveryStep =
    | QRead | QCheckDead | QPublishStopping | QDetach
    | QRestoreRefused(ok: bool) | QRestoreDone(adopted: Config) | QPublish | QPublishFailed
    | QExport | QClean(unpin: bool) | QExit

  datatype Action =
    | LoaderDo(l: LoaderStep)
    | LoaderScans(c: ScanStep)
    | ReceiverDo(p: Pid, r: ReceiverStep)
    | RecoveryDo(p: Pid, q: RecoveryStep)
    | RecoveryScans(p: Pid, c: ScanStep)
    | SpawnReceiver(p: Pid, queue: Queue)
    | SpawnRecovery(p: Pid)
    | External(config: Config)

  function Init(original: Config): (s: State) {
    var rt := Runtime(original, original, false, false, false);
    var loader := Loader(Starting, original, original, false, rt, false, false, false, false);
    State(World(original, false, false, false, rt, loader), map[], map[], map[], map[])
  }

  predicate Alive(s: State, p: Pid) {
    p in s.receivers && s.receivers[p].pc != Gone
  }

  // ----- the claim scan, shared by the loader and recovery

  predicate ScanEnabled(s: State, scan: Scan, step: ScanStep) {
    match step
    case Pick(k) => scan == AtTop && k in s.owners
    case NoKeys => scan == AtTop && s.owners == map[]
    case Found => scan.HaveKey? && scan.key in s.owners
    case Vanished => scan.HaveKey? && scan.key !in s.owners
    case JudgeAlive => scan.HaveOwner? && Alive(s, scan.owner)
    case JudgeDead => scan.HaveOwner? && !Alive(s, scan.owner)
    case StillThere => scan.Confirming? && scan.key in s.owners
    case GoneNow => scan.Confirming? && scan.key !in s.owners
    case Delete => scan.Deleting?
    case ScanError => scan !in {Clear, Live, ScanFailed}
  }

  function ScanNext(s: State, scan: Scan, step: ScanStep): Scan
    requires ScanEnabled(s, scan, step)
  {
    match step
    case Pick(k) => HaveKey(k)
    case NoKeys => Clear
    case Found => HaveOwner(scan.key, s.owners[scan.key])
    case JudgeAlive => Confirming(scan.key)
    case JudgeDead => Deleting(scan.key)
    case StillThere => Live
    case ScanError => ScanFailed
    case Vanished => AtTop
    case GoneNow => AtTop
    case Delete => AtTop
  }

  function OwnersAfterScan(s: State, scan: Scan, step: ScanStep): map<Queue, Pid>
    requires ScanEnabled(s, scan, step)
  {
    if step == Delete then s.owners - {scan.key} else s.owners
  }

  // ----- the receiver

  predicate RuntimeUsable(rt: Runtime) {
    rt.applied && !rt.applying && !rt.stopping && rt.effective.rxFilter == HWTSTAMP_FILTER_ALL
  }

  predicate ReceiverEnabled(s: State, p: Pid, step: ReceiverStep) {
    && p in s.receivers
    && var r := s.receivers[p];
    match step
    case ReadRuntime => r.pc == Opened && RuntimeUsable(s.w.rt) && s.w.loader.pc != Done
    case Claim => r.pc == HasRuntime && r.queue !in s.owners
    case RecheckSame => r.pc == Claimed && s.w.rt == r.first
    case RecheckChanged => r.pc == Claimed && s.w.rt != r.first
    case CheckLoader => r.pc == Rechecked && s.w.loader.pc != Done
    case CheckAttached => r.pc == LoaderSeen && s.w.xdp
    case Register => r.pc == Vetted && r.queue !in s.xskmap
    case AbortUnclaimed => r.pc in {Opened, HasRuntime}
    case AbortClaimed => r.pc in {Claimed, Rechecked, LoaderSeen, Vetted}
    case StopCapture => r.pc == Registered
    case CloseSocket => r.pc == Stopping
    case LookupOwn => r.pc == Closed && r.queue in s.owners && s.owners[r.queue] == p
    case LookupOther => r.pc == Closed && !(r.queue in s.owners && s.owners[r.queue] == p)
    case DeleteClaim => r.pc == Releasing
    case ReceiverDies => r.pc != Gone
  }

  function ReceiverPcAfter(step: ReceiverStep): ReceiverPc {
    match step
    case ReadRuntime => HasRuntime
    case Claim => Claimed
    case RecheckSame => Rechecked
    case RecheckChanged => Closed
    case CheckLoader => LoaderSeen
    case CheckAttached => Vetted
    case Register => Registered
    case AbortUnclaimed => Gone
    case AbortClaimed => Closed
    case StopCapture => Stopping
    case CloseSocket => Closed
    case LookupOwn => Releasing
    case LookupOther => Gone
    case DeleteClaim => Gone
    case ReceiverDies => Gone
  }

  /** The receiver after the step ... */
  function ReceiverNext(r: Receiver, rt: Runtime, step: ReceiverStep): Receiver {
    match step
    case ReadRuntime => r.(pc := ReceiverPcAfter(step), first := rt)
    case _ => r.(pc := ReceiverPcAfter(step))
  }

  /** ... what it did to the claims ... */
  function OwnersAfterReceiver(owners: map<Queue, Pid>, p: Pid, r: Receiver, step: ReceiverStep): map<Queue, Pid> {
    match step
    case Claim => owners[r.queue := p]
    case DeleteClaim => owners - {r.queue}
    case _ => owners
  }

  /** The kernel removes a socket's own entries when it is closed. */
  function Unregister(m: map<Queue, Pid>, p: Pid): map<Queue, Pid> {
    map q | q in m && m[q] != p :: m[q]
  }

  /** ... and to the XSKMAP. */
  function XskmapAfterReceiver(xskmap: map<Queue, Pid>, p: Pid, r: Receiver, step: ReceiverStep): map<Queue, Pid> {
    match step
    case Register => xskmap[r.queue := p]
    case CloseSocket => Unregister(xskmap, p)
    case ReceiverDies => Unregister(xskmap, p)
    case _ => xskmap
  }

  // ----- the loader

  predicate SetupEnabled(w: World, step: SetupStep) {
    var l := w.loader;
    match step
    case Capture => l.pc == Starting
    case Pin => l.pc == Captured
    case Attach => l.pc == Pinned
    case VerifySame => l.pc == Attached && w.device == l.saved
    case VerifyChanged => l.pc == Attached && w.device != l.saved
    case PublishRefresh => l.pc == Refreshed
    case RefreshFailed => l.pc == Refreshed
    case PublishApplying => l.pc == Verified
    case ApplyingFailed => l.pc == Verified
    case SetStale => l.pc == ApplyPublished && w.device != l.saved
    case SetAll(c) => l.pc == ApplyPublished && w.device == l.saved && c.rxFilter == HWTSTAMP_FILTER_ALL
    case SetOther(c) => l.pc == ApplyPublished && w.device == l.saved && c.rxFilter != HWTSTAMP_FILTER_ALL
    case Rollback(_) => l.pc == RollingBack
    case PublishApplied => l.pc == DeviceSet
    case AppliedFailed => l.pc == DeviceSet
    case Complete => l.pc == Ready
    case Abort => l.pc in {Starting, Captured, Pinned, Attached, Verified, ApplyPublished, RollingBack, Ready}
  }

  /** The steps up to the last look at the device before it is changed ... */
  predicate Early(step: SetupStep) {
    step in {Capture, Pin, Attach, VerifySame, VerifyChanged, PublishRefresh, RefreshFailed}
  }

  /** ... and the steps of the exit before the device is restored. */
  predicate Leaving(step: ExitStep) {
    step in {PublishStopping, StoppingFailed, Detach, KeepAttached, NotAttached, ExportDone, ExportFailed, SkipExport}
  }

  predicate ExitEnabled(w: World, step: ExitStep) {
    var l := w.loader;
    match step
    case PublishStopping => l.pc == Exiting && l.attached
    case StoppingFailed => l.pc == Exiting && l.attached
    case Detach => l.pc == Scanning(Clear)
    case KeepAttached => l.pc in {Scanning(Clear), Scanning(Live), Scanning(ScanFailed)}
    case NotAttached => l.pc == Exiting && !l.attached
    case ExportDone => l.pc == AfterDetach && l.complete && !l.attached
    case ExportFailed => l.pc == AfterDetach && l.complete && !l.attached
    case SkipExport => l.pc == AfterDetach && (!l.complete || l.attached)
    case RestoreIdle => l.pc == Restoring && !l.attached && !l.active
    case RestoreRefused(ok) =>
      l.pc == Restoring && !l.attached && l.active && (!ok || !MayRestore(w.device, l.saved, l.effective, true))
    case RestoreDone(_) =>
      l.pc == Restoring && !l.attached && l.active && MayRestore(w.device, l.saved, l.effective, true) && !l.preserve
    case RestoreKept(_) =>
      l.pc == Restoring && !l.attached && l.active && MayRestore(w.device, l.saved, l.effective, true) && l.preserve
    case SkipRestore => l.pc == Restoring && l.attached
    case PublishRestored => l.pc == Republishing
    case RestoredFailed => l.pc == Republishing
    case Unpin => l.pc == Unpinning && l.pinned && !l.preserve
    case KeepPins => l.pc == Unpinning
    case LoaderDies => l.pc != Done
  }

  predicate LoaderEnabled(w: World, step: LoaderStep) {
    match step
    case Up(u) => SetupEnabled(w, u)
    case Down(d) => ExitEnabled(w, d)
  }

  /** A successful update of the pinned runtime record. */
  function Publish(w: World, l: Loader, mem: Runtime, pc: LoaderPc): World {
    w.(rt := mem, loader := l.(mem := mem, pc := pc))
  }

  /** runtime_set_hwtstamp and runtime_set_hwtstamp_applying. */
  function Remember(mem: Runtime, l: Loader, applying: bool, applied: bool): Runtime {
    mem.(saved := l.saved, effective := l.effective, applying := applying, applied := applied)
  }

  function Keep(l: Loader, pc: LoaderPc): Loader {
    l.(preserve := l.preserve || l.pinned, pc := pc)
  }

  function SetupNext(w: World, step: SetupStep): World
    requires SetupEnabled(w, step)
  {
    var l := w.loader;
    match step
    case Capture => w.(loader := l.(saved := w.device, effective := w.device, active := true, pc := Captured))
    case Pin =>
      var mem := Runtime(l.saved, l.effective, false, false, false);
      w.(pins := true, rt := mem, loader := l.(mem := mem, pinned := true, pc := Pinned))
    case Attach => w.(xdp := true, loader := l.(attached := true, pc := Attached))
    case VerifySame => w.(loader := l.(pc := Verified))
    case VerifyChanged => w.(loader := l.(saved := w.device, effective := w.device, pc := Refreshed))
    case PublishRefresh => Publish(w, l, Remember(l.mem, l, false, false), Exiting)
    case RefreshFailed => w.(loader := l.(mem := Remember(l.mem, l, false, false), pc := Exiting))
    case PublishApplying =>
      var prepared := l.(effective := Requested(l.saved));
      Publish(w, prepared, Remember(l.mem, prepared, true, false), ApplyPublished)
    case ApplyingFailed =>
      var prepared := l.(effective := Requested(l.saved));
      w.(loader := prepared.(mem := Remember(l.mem, prepared, true, false), pc := Exiting))
    case SetStale => w.(loader := l.(pc := Exiting))
    case SetAll(adopted) => w.(device := adopted, loader := l.(effective := adopted, pc := DeviceSet))
    case SetOther(adopted) => w.(device := adopted, loader := l.(effective := adopted, pc := RollingBack))
    case Rollback(adopted) =>
      w.(device := adopted, loader := l.(saved := adopted, effective := adopted, pc := Exiting))
    case PublishApplied => Publish(w, l, Remember(l.mem, l, false, true), Ready)
    case AppliedFailed => w.(loader := l.(mem := Remember(l.mem, l, false, true), pc := Exiting))
    case Complete => w.(loader := l.(complete := true, pc := Exiting))
    case Abort => w.(loader := l.(pc := Exiting))
  }

  function ExitNext(w: World, step: ExitStep): World
    requires ExitEnabled(w, step)
  {
    var l := w.loader;
    match step
    case PublishStopping => Publish(w, l, l.mem.(stopping := true), Scanning(AtTop))
    case StoppingFailed => w.(loader := Keep(l.(mem := l.mem.(stopping := true)), AfterDetach))
    case Detach => w.(xdp := false, loader := l.(attached := false, pc := AfterDetach))
    case KeepAttached => w.(loader := Keep(l, AfterDetach))
    case NotAttached => w.(loader := l.(pc := AfterDetach))
    case ExportDone => w.(exported := true, loader := l.(pc := Restoring))
    case ExportFailed => w.(loader := Keep(l, Restoring))
    case SkipExport => w.(loader := l.(pc := Restoring))
    case RestoreIdle => w.(loader := l.(pc := Unpinning))
    case RestoreRefused(_) => w.(loader := Keep(l, Unpinning))
    case RestoreDone(adopted) =>
      w.(device := adopted, loader := l.(saved := adopted, effective := adopted, active := false, pc := Unpinning))
    case RestoreKept(adopted) =>
      w.(device := adopted, loader := l.(saved := adopted, effective := adopted, active := false, pc := Republishing))
    case SkipRestore => w.(loader := l.(pc := Unpinning))
    case PublishRestored => Publish(w, l, Remember(l.mem, l, false, false), Unpinning)
    case RestoredFailed => w.(loader := l.(mem := Remember(l.mem, l, false, false), pc := Unpinning))
    case Unpin => w.(pins := false, loader := l.(pc := Done))
    case KeepPins => w.(loader := l.(pc := Done))
    case LoaderDies => w.(loader := l.(pc := Done))
  }

  /** What the last steps of the exit do to the configurations: none of them changes, or all
      of them become what the driver adopted in place of a known one. */
  predicate RestoreEffect(w: World, w': World, adopted: Config) {
    var l, l' := w.loader, w'.loader;
    && l.pc != Done && l'.pc in {Unpinning, Republishing, Done}
    && (|| (w'.device == w.device && l'.saved == l.saved && l'.effective == l.effective)
        || (MayRestore(w.device, l.saved, l.effective, true) && w'.device == l'.saved == l'.effective == adopted))
    && (l'.mem == l.mem || l'.mem == Remember(l.mem, l, false, false))
    && (w'.rt == w.rt || w'.rt == l'.mem)
  }

  function LoaderNext(w: World, step: LoaderStep): World
    requires LoaderEnabled(w, step)
  {
    match step
    case Up(u) => SetupNext(w, u)
    case Down(d) => ExitNext(w, d)
  }

  function Adopted(step: ExitStep, otherwise: Config): Config {
    match step
    case RestoreDone(c) => c
    case RestoreKept(c) => c
    case _ => otherwise
  }

  lemma LastExitRestores(w: World, step: ExitStep, w': World)
    requires ExitEnabled(w, step) && w' == ExitNext(w, step) && !Leaving(step)
    ensures RestoreEffect(w, w', Adopted(step, w.loader.saved))
  {
  }

  // ----- recovery

  predicate RecoveryEnabled(w: World, q: Recovery, step: RecoveryStep) {
    match step
    case QRead => q.pc == QReading
    case QCheckDead => q.pc == QHasCopy && w.loader.pc == Done
    case QPublishStopping => q.pc == QChecked
    case QDetach => q.pc == QSweeping(Clear)
    case QRestoreRefused(ok) =>
      q.pc == QRestoring && (!ok || !MayRestore(w.device, q.copy.saved, q.copy.effective, true))
    case QRestoreDone(_) => q.pc == QRestoring && MayRestore(w.device, q.copy.saved, q.copy.effective, true)
    case QPublish => q.pc == QPublishing
    case QPublishFailed => q.pc == QPublishing
    case QExport => q.pc == QDraining
    case QClean(unpin) => q.pc == QCleaning && (unpin ==> !q.stateError)
    case QExit => q.pc != QFinished
  }

  /** The recovery after the step ... */
  function RecoveryNext(w: World, q: Recovery, step: RecoveryStep): Recovery
    requires RecoveryEnabled(w, q, step)
  {
    match step
    case QRead => q.(copy := w.rt, pc := QHasCopy)
    case QCheckDead => q.(pc := QChecked)
    case QPublishStopping => q.(copy := q.copy.(stopping := true), pc := QSweeping(AtTop))
    case QDetach => q.(pc := QRestoring)
    case QRestoreRefused(_) => q.(stateError := true, pc := QDraining)
    case QRestoreDone(_) => q.(copy := q.copy.(effective := q.copy.saved, applying := false, applied := false), pc := QPublishing)
    case QPublish => q.(pc := QDraining)
    case QPublishFailed => q.(stateError := true, pc := QDraining)
    case QExport => q.(pc := QCleaning)
    case QClean(_) => q.(pc := QFinished)
    case QExit => q.(pc := QFinished)
  }

  /** ... and what it did to the world. */
  function WorldAfterRecovery(w: World, q: Recovery, step: RecoveryStep): World
    requires RecoveryEnabled(w, q, step)
  {
    match step
    case QPublishStopping => w.(rt := q.copy.(stopping := true))
    case QDetach => w.(xdp := false)
    case QRestoreDone(adopted) => w.(device := adopted)
    case QPublish => w.(rt := q.copy)
    case QExport => w.(exported := true)
    case QClean(unpin) => w.(pins := w.pins && !unpin)
    case _ => w
  }

  // ----- the whole system

  predicate Enabled(s: State, a: Action) {
    match a
    case LoaderDo(l) => LoaderEnabled(s.w, l)
    case LoaderScans(c) => s.w.loader.pc.Scanning? && ScanEnabled(s, s.w.loader.pc.scan, c)
    case ReceiverDo(p, r) => ReceiverEnabled(s, p, r)
    case RecoveryDo(p, q) => p in s.recoveries && RecoveryEnabled(s.w, s.recoveries[p], q)
    case RecoveryScans(p, c) =>
      p in s.recoveries && s.recoveries[p].pc.QSweeping? && ScanEnabled(s, s.recoveries[p].pc.scan, c)
    case SpawnReceiver(p, _) => s.w.pins && p !in s.receivers && p !in s.recoveries
    case SpawnRecovery(p) => s.w.pins && p !in s.receivers && p !in s.recoveries
    case External(_) => true
  }

  function Next(s: State, a: Action): State
    requires Enabled(s, a)
  {
    match a
    case LoaderDo(l) => s.(w := LoaderNext(s.w, l))
    case LoaderScans(c) =>
      var l := s.w.loader;
      s.(owners := OwnersAfterScan(s, l.pc.scan, c), w := s.w.(loader := l.(pc := Scanning(ScanNext(s, l.pc.scan, c)))))
    case ReceiverDo(p, step) =>
      var r := s.receivers[p];
      s.(receivers := s.receivers[p := ReceiverNext(r, s.w.rt, step)],
         owners := OwnersAfterReceiver(s.owners, p, r, step),
         xskmap := XskmapAfterReceiver(s.xskmap, p, r, step))
    case RecoveryDo(p, q) =>
      s.(w := WorldAfterRecovery(s.w, s.recoveries[p], q), recoveries := s.recoveries[p := RecoveryNext(s.w, s.recoveries[p], q)])
    case RecoveryScans(p, c) =>
      var q := s.recoveries[p];
      s.(owners := OwnersAfterScan(s, q.pc.scan, c), recoveries := s.recoveries[p := q.(pc := QSweeping(ScanNext(s, q.pc.scan, c)))])
    case SpawnReceiver(p, queue) => s.(receivers := s.receivers[p := Receiver(queue, Opened, s.w.rt)])
    case SpawnRecovery(p) => s.(recoveries := s.recoveries[p := Recovery(QReading, s.w.rt, false)])
    case External(config) => s.(w := s.w.(device := config))
  }

  /** A run is a list of actions, each enabled where it happens. */
  predicate IsRun(s: State, run: seq<Action>)
    decreases |run|
  {
    run == [] || (Enabled(s, run[0]) && IsRun(Next(s, run[0]), run[1..]))
  }

  function Final(s: State, run: seq<Action>): State
    requires IsRun(s, run)
    decreases |run|
  {
    if run == [] then s else Final(Next(s, run[0]), run[1..])
  }

  ghost predicate Reachable(s: State) {
    exists original, run :: IsRun(Init(original), run) && Final(Init(original), run) == s
  }

  /** Two runs, one after the other. */
  lemma {:induction false} Concat(s: State, first: seq<Action>, second: seq<Action>)
    requires IsRun(s, first) && IsRun(Final(s, first), second)
    ensures IsRun(s, first + second) && Final(s, first + second) == Final(Final(s, first), second)
    decreases |first|
  {
    var both := first + second;
    if first == [] {
      assert both == second;
    } else {
      assert both[0] == first[0] && both[1..] == first[1..] + second;
      Concat(Next(s, first[0]), first[1..], second);
    }
  }

  /** One more action in front of a run. */
  lemma Prepend(s: State, a: Action, rest: seq<Action>)
    requires Enabled(s, a) && IsRun(Next(s, a), rest)
    ensures IsRun(s, [a] + rest) && Final(s, [a] + rest) == Final(Next(s, a), rest)
  {
    assert ([a] + rest)[1..] == rest;
  }

  /** One more action at the end of a run that leads to `t`. */
  lemma Extend(s: State, run: seq<Action>, t: State, a: Action) returns (longer: seq<Action>, u: State)
    requires IsRun(s, run) && Final(s, run) == t && Enabled(t, a)
    ensures longer == run + [a] && u == Next(t, a) && IsRun(s, longer) && Final(s, longer) == u
  {
    longer, u := run + [a], Next(t, a);
    assert IsRun(u, []) && [a][1..] == [];
    assert IsRun(t, [a]) && Final(t, [a]) == u;
    Concat(s, run, [a]);
  }

  /** An owner word of the claims map, and the scan of that map when nothing interferes. */
  datatype Owner = Owner(pid: int, startTicks: int, reserved: int)
  datatype ScanVerdict = NoLiveClaim | LiveClaim | BadClaim | MapError

  /** What goes wrong with the map: lookups and deletes by key, liveness checks by owner, and
      the question for a key after so many turns. */
  datatype Faults = Faults(lookup: set<Queue>, delete: set<Queue>, judge: set<Owner>, nextKey: set<nat>)

  predicate WellFormed(o: Owner) {
    0 < o.pid <= 0x7FFF_FFFF && o.startTicks != 0 && o.reserved == 0
  }

  /** No process has written such a word: no pid, no start time, or something in the spare half. */
  predicate Malformed(o: Owner) {
    o.pid <= 0 || o.pid > 0x7FFF_FFFF || o.startTicks == 0 || o.reserved != 0
  }

  method HaveLiveClaim(owners: map<Queue, Owner>, alive: set<Owner>, faults: Faults)
    returns (verdict: ScanVerdict, left: map<Queue, Owner>)
    ensures left.Keys <= owners.Keys && forall q | q in left :: left[q] == owners[q]
    ensures forall q | q in owners && q !in left ::
              !Malformed(owners[q]) && owners[q] !in alive && owners[q] !in faults.judge && q !in faults.lookup + faults.delete
    ensures verdict == NoLiveClaim ==> left == map[]
    ensures verdict == LiveClaim ==> exists q :: q in left && !Malformed(left[q]) && left[q] in alive
    ensures verdict == BadClaim ==> exists q :: q in left && Malformed(left[q])
    ensures verdict == MapError ==>
              || |owners| - |left| in faults.nextKey
              || exists q :: q in left && (q in faults.lookup || left[q] in faults.judge || q in faults.delete)
  {
    left := owners;
    while true
      invariant left.Keys <= owners.Keys && forall q | q in left :: left[q] == owners[q]
      invariant forall q | q in owners && q !in left ::
                  WellFormed(owners[q]) && owners[q] !in alive && owners[q] !in faults.judge && q !in faults.lookup + faults.delete
      decreases |left|
    {
      if |owners| - |left| in faults.nextKey {
        return MapError, left;
      }
      if left == map[] {
        return NoLiveClaim, left;
      }
      assert left.Keys != {};
      var key :| key in left;
      if key in faults.lookup {
        return MapError, left;
      }
      var owner := left[key];
      if !WellFormed(owner) {
        return BadClaim, left;
      }
      if owner in faults.judge {
        return MapError, left;
      }
      if owner in alive {
        return LiveClaim, left;
      }
      if key in faults.delete {
        return MapError, left;
      }
      assert (left - {key}).Keys == left.Keys - {key};
      left := left - {key};
    }
  }
}
