/** The child processes of a run: receivers on one machine, senders on the other, the
    signals and completion bytes between them and their supervisors, and the order of
    shutdown (experiment/ace-run.c, udp_socket/src/receiver.c, BPF/afxdp_recv.c).

    The supervisors' own program is that of RunProtocol; this module says what its local
    steps do to the children and what they wait for.  Signals to the children come from
    their supervisor only. */
module RunBarrier {
  import opened RunProtocol

  /** The outcome byte a child writes into its completion pipe. */
  datatype Byte = NoByte | OkByte | BadByte

  datatype Phase = Capturing | Drained | Reported | Saved | Gone

  /** `term` and `usr1` are the child's sticky signal flags, `drained` says that its
      capture ended, `saved` that it wrote its records; `heard` and `reaped` are the
      supervisor's view of it. */
  datatype Receiver = Receiver(
    phase: Phase, term: bool, usr1: bool, drained: bool, saved: bool, byte: Byte, heard: bool, reaped: bool)

  datatype Sender = Sender(attempted: nat, byte: Byte, heard: bool, gone: bool)

  datatype ReceiverStep = Drain | Report | ReportFailure | Save | Exit
  datatype SenderStep = Attempt | ReportSent | ReportUnsent | ExitSender

  /** `counts` holds the packet count of every enabled flow; there is one receiver and one
      sender per flow.  `started` says that the file the senders wait for is there, `cleanup`
      counts the phases of cleanup_children behind us. */
  datatype System = System(
    ctl: State, counts: seq<nat>, receivers: seq<Receiver>, senders: seq<Sender>, started: bool, loaderTold: bool, cleanup: nat)

  datatype Act =
    | Control(act: Action)
    | RxBegins | SpawnReceiver | RxPrepared | RxStops | Hear(i: nat) | RxAllHeard | RxReleases
    | Reap(i: nat) | RxReaped | RxStopsLoader
    | CleanTerm | CleanUsr1 | CleanLoader
    | TxBegins | TxSpawns | TxPublishes | HearSender(i: nat) | TxAllHeard
    | ReceiverDo(i: nat, r: ReceiverStep)
    | SenderDo(i: nat, t: SenderStep)

  // ----- one child

  predicate ReceiverEnabled(c: Receiver, step: ReceiverStep) {
    match step
    case Drain => c.phase == Capturing && c.term
    case Report => c.phase == Drained
    case ReportFailure => c.phase in {Capturing, Drained}
    case Save => c.phase == Reported && (c.byte == OkByte ==> c.usr1)
    case Exit => c.phase != Gone
  }

  function ReceiverNext(c: Receiver, step: ReceiverStep): Receiver {
    match step
    case Drain => c.(phase := Drained, drained := true)
    case Report => c.(phase := Reported, byte := OkByte)
    case ReportFailure => c.(phase := Reported, byte := BadByte)
    case Save => c.(phase := Saved, saved := true)
    case Exit => c.(phase := Gone)
  }

  predicate SenderEnabled(c: Sender, count: nat, step: SenderStep) {
    match step
    case Attempt => !c.gone && c.byte == NoByte && c.attempted < count
    case ReportSent => !c.gone && c.byte == NoByte && c.attempted == count
    case ReportUnsent => !c.gone && c.byte == NoByte
    case ExitSender => !c.gone
  }

  function SenderNext(c: Sender, step: SenderStep): Sender {
    match step
    case Attempt => c.(attempted := c.attempted + 1)
    case ReportSent => c.(byte := OkByte)
    case ReportUnsent => c.(byte := BadByte)
    case ExitSender => c.(gone := true)
  }

  function NewReceiver(): Receiver {
    Receiver(Capturing, false, false, false, false, NoByte, false, false)
  }

  function NewSenders(n: nat): seq<Sender> { seq(n, _ => Sender(0, NoByte, false, false)) }

  function Termed(c: Receiver): Receiver { c.(term := true) }

  function Usr1ed(c: Receiver): Receiver { c.(usr1 := true) }

  function TermAll(cs: seq<Receiver>): seq<Receiver> {
    seq(|cs|, i requires 0 <= i < |cs| => Termed(cs[i]))
  }

  function Usr1All(cs: seq<Receiver>): seq<Receiver> {
    seq(|cs|, i requires 0 <= i < |cs| => Usr1ed(cs[i]))
  }

  ghost predicate AllHeard(cs: seq<Receiver>) {
    forall i | 0 <= i < |cs| :: cs[i].heard
  }

  ghost predicate AllReaped(cs: seq<Receiver>) {
    forall i | 0 <= i < |cs| :: cs[i].reaped
  }

  /** Everybody got TERM ... */
  ghost predicate AllTold(cs: seq<Receiver>) {
    forall i | 0 <= i < |cs| :: cs[i].term
  }

  /** ... and USR1. */
  ghost predicate AllReleased(cs: seq<Receiver>) {
    forall i | 0 <= i < |cs| :: cs[i].usr1
  }

  ghost predicate AllSendersHeard(cs: seq<Sender>) {
    forall i | 0 <= i < |cs| :: cs[i].heard
  }

  // ----- the system

  const RX_LOCAL := Action(false, Local)
  const TX_LOCAL := Action(true, Local)
  const RX_BEGIN := Action(false, BeginRun)
  const TX_BEGIN := Action(true, BeginRun)

  /** Local steps of a supervisor that mean something for its children have an action of
      their own. */
  predicate Plain(s: System, act: Action) {
    && act.step != BeginRun
    && (act == RX_LOCAL ==> s.ctl.rx.role.pc !in {RxPrepare, RxRequestStops, RxAwait, RxRelease, RxReap, RxStopPipeline})
    && (act == TX_LOCAL ==> s.ctl.tx.role.pc !in {TxSpawn, TxPublishStart, TxAwait})
  }

  ghost predicate ActEnabled(s: System, a: Act) {
    var rx, tx := s.ctl.rx.role, s.ctl.tx.role;
    match a
    case Control(act) => Enabled(s.ctl, act) && Plain(s, act)
    case RxBegins => Enabled(s.ctl, RX_BEGIN)
    case SpawnReceiver => !rx.failed && rx.pc == RxPrepare && |s.receivers| < |s.counts|
    case RxPrepared => !rx.failed && rx.pc == RxPrepare && |s.receivers| == |s.counts|
    case RxStops => !rx.failed && rx.pc == RxRequestStops
    case Hear(i) => !rx.failed && rx.pc == RxAwait && i < |s.receivers| && s.receivers[i].byte == OkByte
    case RxAllHeard => !rx.failed && rx.pc == RxAwait && AllHeard(s.receivers)
    case RxReleases => !rx.failed && rx.pc == RxRelease
    case Reap(i) => i < |s.receivers| && s.receivers[i].phase == Gone
    case RxReaped => !rx.failed && rx.pc == RxReap && AllReaped(s.receivers)
    case RxStopsLoader => !rx.failed && rx.pc == RxStopPipeline
    case CleanTerm => rx.failed && s.cleanup == 0
    case CleanUsr1 => rx.failed && s.cleanup == 1
    case CleanLoader => rx.failed && s.cleanup == 2 && AllReaped(s.receivers)
    case TxBegins => Enabled(s.ctl, TX_BEGIN)
    case TxSpawns => !tx.failed && tx.pc == TxSpawn
    case TxPublishes => !tx.failed && tx.pc == TxPublishStart
    case HearSender(i) => !tx.failed && tx.pc == TxAwait && i < |s.senders| && s.senders[i].byte == OkByte
    case TxAllHeard => !tx.failed && tx.pc == TxAwait && AllSendersHeard(s.senders)
    case ReceiverDo(i, step) => i < |s.receivers| && ReceiverEnabled(s.receivers[i], step)
    case SenderDo(i, step) =>
      && i < |s.senders| && i < |s.counts| && SenderEnabled(s.senders[i], s.counts[i], step)
      && (step in {Attempt, ReportSent} ==> s.started)
  }

  ghost function After1(s: System, act: Action): System
    requires Enabled(s.ctl, act)
  {
    s.(ctl := Next(s.ctl, act))
  }

  ghost function ActNext(s: System, a: Act): System
    requires ActEnabled(s, a)
  {
    match a
    case Control(act) => After1(s, act)
    case RxBegins => After1(s, RX_BEGIN).(receivers := [], loaderTold := false, cleanup := 0)
    case SpawnReceiver => s.(receivers := s.receivers + [NewReceiver()])
    case RxPrepared => After1(s, RX_LOCAL)
    case RxStops => After1(s, RX_LOCAL).(receivers := TermAll(s.receivers))
    case Hear(i) => s.(receivers := s.receivers[i := s.receivers[i].(heard := true)])
    case RxAllHeard => After1(s, RX_LOCAL)
    case RxReleases => After1(s, RX_LOCAL).(receivers := Usr1All(s.receivers))
    case Reap(i) => s.(receivers := s.receivers[i := s.receivers[i].(reaped := true)])
    case RxReaped => After1(s, RX_LOCAL)
    case RxStopsLoader => After1(s, RX_LOCAL).(loaderTold := true)
    case CleanTerm => s.(cleanup := 1, receivers := TermAll(s.receivers))
    case CleanUsr1 => s.(cleanup := 2, receivers := Usr1All(s.receivers))
    case CleanLoader => s.(cleanup := 3, loaderTold := true)
    case TxBegins => After1(s, TX_BEGIN).(senders := [], started := false)
    case TxSpawns => After1(s, TX_LOCAL).(senders := NewSenders(|s.counts|))
    case TxPublishes => After1(s, TX_LOCAL).(started := true)
    case HearSender(i) => s.(senders := s.senders[i := s.senders[i].(heard := true)])
    case TxAllHeard => After1(s, TX_LOCAL)
    case ReceiverDo(i, step) => s.(receivers := s.receivers[i := ReceiverNext(s.receivers[i], step)])
    case SenderDo(i, step) => s.(senders := s.senders[i := SenderNext(s.senders[i], step)])
  }

  /** The step of the roles that an act of the system contains, if any. */
  function RoleStep(a: Act): (r: seq<Action>) {
    match a
    case Control(act) => [act]
    case RxBegins => [RX_BEGIN]
    case TxBegins => [TX_BEGIN]
    case RxPrepared => [RX_LOCAL]
    case RxStops => [RX_LOCAL]
    case RxAllHeard => [RX_LOCAL]
    case RxReleases => [RX_LOCAL]
    case RxReaped => [RX_LOCAL]
    case RxStopsLoader => [RX_LOCAL]
    case TxSpawns => [TX_LOCAL]
    case TxPublishes => [TX_LOCAL]
    case TxAllHeard => [TX_LOCAL]
    case _ => []
  }

  lemma RoleStepEnabled(s: System, a: Act)
    requires ActEnabled(s, a) && RoleStep(a) != []
    ensures Enabled(s.ctl, RoleStep(a)[0])
  {
  }

  lemma RoleStepTaken(s: System, a: Act, s': System)
    requires ActEnabled(s, a) && s' == ActNext(s, a)
    ensures RoleStep(a) == [] ==> s'.ctl == s.ctl
    ensures RoleStep(a) != [] ==> Enabled(s.ctl, RoleStep(a)[0]) && s'.ctl == Next(s.ctl, RoleStep(a)[0])
  {
    if RoleStep(a) != [] {
      RoleStepEnabled(s, a);
      assert s'.ctl == After1(s, RoleStep(a)[0]).ctl;
    }
  }

  ghost predicate IsRunOf(s: System, run: seq<Act>)
    decreases |run|
  {
    run == [] || (ActEnabled(s, run[0]) && IsRunOf(ActNext(s, run[0]), run[1..]))
  }

  ghost function FinalOf(s: System, run: seq<Act>): System
    requires IsRunOf(s, run)
    decreases |run|
  {
    if run == [] then s else FinalOf(ActNext(s, run[0]), run[1..])
  }

  ghost function InitOf(rxConfig: Config, txConfig: Config, nonce: int, counts: seq<nat>): System {
    System(Init(rxConfig, txConfig, nonce), counts, [], [], false, false, 0)
  }

  ghost predicate ReachableSystem(s: System) {
    exists c, d, nonce, counts, run ::
      IsRunOf(InitOf(c, d, nonce, counts), run) && FinalOf(InitOf(c, d, nonce, counts), run) == s
  }

  // ----- the invariant

  predicate ReceiverOk(c: Receiver) {
    && (c.byte == OkByte ==> c.drained) && (c.drained ==> c.term && c.phase != Capturing)
    && (c.phase == Drained ==> c.drained)
    && (c.phase == Saved ==> c.saved) && (c.saved ==> c.phase in {Saved, Gone})
    && (c.heard ==> c.byte == OkByte)
    && (c.phase in {Capturing, Drained} ==> c.byte == NoByte)
    && (c.reaped ==> c.phase == Gone)
  }

  predicate SenderOk(c: Sender, count: nat) {
    (c.byte == OkByte ==> c.attempted == count) && (c.heard ==> c.byte == OkByte)
  }

  predicate PastStops(pc: Pc) {
    pc in {RxAwait, RxRelease} || PastRelease(pc)
  }

  predicate PastRelease(pc: Pc) {
    pc in {RxReap, RxSendDone, RxRecvAck, RxStopPipeline, RxRecord, RxMark, Idle}
  }

  predicate PastReap(pc: Pc) {
    pc in {RxSendDone, RxRecvAck, RxStopPipeline, RxRecord, RxMark, Idle}
  }

  ghost predicate RxOk(rx: Role, cs: seq<Receiver>, flows: nat, loaderTold: bool) {
    && (forall i | 0 <= i < |cs| :: ReceiverOk(cs[i]))
    && (forall i | 0 <= i < |cs| :: cs[i].usr1 ==> rx.failed || PastRelease(rx.pc))
    && (forall i | 0 <= i < |cs| :: cs[i].term ==> rx.failed || PastStops(rx.pc))
    && (PastRelease(rx.pc) ==> AllReleased(cs))
    && (PastStops(rx.pc) ==> AllTold(cs))
    && (rx.pc == RxRelease || PastRelease(rx.pc) ==> AllHeard(cs))
    && (PastReap(rx.pc) ==> AllReaped(cs))
    && (loaderTold ==> AllReaped(cs) && (rx.failed || rx.pc in {RxRecord, RxMark, Idle}))
    && (rx.pc in {RxRecord, RxMark} || (rx.pc == Idle && rx.index > 0) ==> loaderTold)
    && (rx.pc !in {Idle, RxHelloIn, RxHelloOut, RxPrepare} ==> |cs| == flows)
    && (rx.pc in {RxHelloIn, RxHelloOut} ==> |cs| == 0)
  }

  predicate PastSending(pc: Pc) {
    pc in {TxSendStop, TxRecvDone, TxFlush, TxRecord, TxSendAck, TxMark}
  }

  ghost predicate TxOk(tx: Role, cs: seq<Sender>, counts: seq<nat>, started: bool) {
    && |cs| <= |counts|
    && (tx.pc in {TxSendStarted, TxAwait} ==> started)
    && (started ==> tx.pc in {TxSendStarted, TxAwait} || AllSendersHeard(cs))
    && (forall i | 0 <= i < |cs| :: !started ==> cs[i].attempted == 0 && cs[i].byte != OkByte)
    && (forall i | 0 <= i < |cs| :: SenderOk(cs[i], counts[i]))
    && (PastSending(tx.pc) || tx.pc == Idle ==> AllSendersHeard(cs))
    && (tx.pc in {TxHelloOut, TxHelloIn, TxPrepare, TxRecvReady, TxSpawn} ==> |cs| == 0)
    && (tx.pc in {TxPrepare, TxRecvReady, TxSpawn, TxSendReady, TxRecvStart, TxPublishStart} ==> !started)
    && (PastSending(tx.pc) || tx.pc in {TxSendReady, TxRecvStart, TxPublishStart, TxSendStarted, TxAwait} ==> |cs| == |counts|)
  }

  /** What cleanup_children has got behind it on the receiving side. */
  ghost predicate CleanOk(s: System) {
    && (s.cleanup > 0 ==> s.ctl.rx.role.failed) && s.cleanup <= 3
    && (s.cleanup >= 1 ==> AllTold(s.receivers)) && (s.cleanup >= 2 ==> AllReleased(s.receivers))
    && (s.cleanup == 3 ==> s.loaderTold)
  }

  ghost predicate InvOf(s: System) {
    && !s.ctl.rx.role.sender && s.ctl.tx.role.sender
    && Inv(s.ctl.rx, s.ctl.tx, s.ctl.rx.role.nonce)
    && RxOk(s.ctl.rx.role, s.receivers, |s.counts|, s.loaderTold)
    && TxOk(s.ctl.tx.role, s.senders, s.counts, s.started) && CleanOk(s)
  }

  // ----- what a protocol step does to the two roles

  lemma ControlInv(s: State, act: Action, s': State)
    requires !s.rx.role.sender && s.tx.role.sender && Inv(s.rx, s.tx, s.rx.role.nonce) && Enabled(s, act) && s' == Next(s, act)
    ensures !s'.rx.role.sender && s'.tx.role.sender && Inv(s'.rx, s'.tx, s'.rx.role.nonce)
  {
    ActionKeepsInv(s, s.rx.role.nonce, act, s');
    assert s'.rx.role.nonce == s.rx.role.nonce;
  }

  lemma OtherRoleUntouched(s: State, act: Action, s': State)
    requires Enabled(s, act) && s' == Next(s, act)
    ensures act.bySender ==> s'.rx.role == s.rx.role
    ensures !act.bySender ==> s'.tx.role == s.tx.role
  {
  }

  /** A step leaves the pc or takes it to the next place of the program. */
  lemma RoleMoves(a: Half, b: Half, step: Step, a': Half)
    requires StepEnabled(a, b, step) && a' == StepSelf(a, b, step) && step != BeginRun
    ensures a'.role.pc == a.role.pc || (a'.role.pc == After(a.role.pc) && !a.role.failed)
    ensures a'.role.sender == a.role.sender && a'.role.index == a.role.index && (a.role.failed ==> a'.role.failed)
  {
  }

  lemma RxProgramOk(rx: Role, cs: seq<Receiver>, flows: nat, told: bool, rx': Role)
    requires RxOk(rx, cs, flows, told) && PcOk(rx) && !rx.sender && !rx'.sender && rx'.index == rx.index && (rx.failed ==> rx'.failed)
    requires rx'.pc == rx.pc || (rx'.pc == After(rx.pc) && !rx.failed)
    requires rx.pc in {RxPrepare, RxRequestStops, RxAwait, RxRelease, RxReap, RxStopPipeline} ==> rx'.pc == rx.pc
    ensures RxOk(rx', cs, flows, told)
  {
  }

  lemma PlainKeepsRx(s: System, act: Action, s': System)
    requires RxOk(s.ctl.rx.role, s.receivers, |s.counts|, s.loaderTold) && PcOk(s.ctl.rx.role) && !s.ctl.rx.role.sender
    requires Enabled(s.ctl, act) && Plain(s, act) && !act.bySender && s' == After1(s, act)
    ensures RxOk(s'.ctl.rx.role, s.receivers, |s.counts|, s.loaderTold)
  {
    RoleMoves(s.ctl.rx, s.ctl.tx, act.step, s'.ctl.rx);
    RxProgramOk(s.ctl.rx.role, s.receivers, |s.counts|, s.loaderTold, s'.ctl.rx.role);
  }

  lemma TxProgramOk(tx: Role, cs: seq<Sender>, counts: seq<nat>, started: bool, tx': Role)
    requires TxOk(tx, cs, counts, started) && PcOk(tx) && tx.sender && tx'.sender
    requires tx'.pc == tx.pc || (tx'.pc == After(tx.pc) && !tx.failed)
    requires tx.pc in {TxSpawn, TxPublishStart, TxAwait} ==> tx'.pc == tx.pc
    ensures TxOk(tx', cs, counts, started)
  {
  }

  lemma PlainKeepsTx(s: System, act: Action, s': System)
    requires TxOk(s.ctl.tx.role, s.senders, s.counts, s.started) && PcOk(s.ctl.tx.role) && s.ctl.tx.role.sender
    requires Enabled(s.ctl, act) && Plain(s, act) && act.bySender && s' == After1(s, act)
    ensures TxOk(s'.ctl.tx.role, s.senders, s.counts, s.started)
  {
    RoleMoves(s.ctl.tx, s.ctl.rx, act.step, s'.ctl.tx);
    TxProgramOk(s.ctl.tx.role, s.senders, s.counts, s.started, s'.ctl.tx.role);
  }

  lemma ControlKeepsInv(s: System, act: Action, s': System)
    requires InvOf(s) && Enabled(s.ctl, act) && Plain(s, act) && s' == After1(s, act)
    ensures InvOf(s')
  {
    ControlInv(s.ctl, act, s'.ctl);
    OtherRoleUntouched(s.ctl, act, s'.ctl);
    if act.bySender {
      PlainKeepsTx(s, act, s');
    } else {
      PlainKeepsRx(s, act, s');
    }
  }

  // ----- the receiving supervisor's steps

  /** A local step of the receiving supervisor moves its pc and nothing else. */
  lemma RxLocal(s: System, t: State)
    requires InvOf(s) && Enabled(s.ctl, RX_LOCAL) && t == Next(s.ctl, RX_LOCAL)
    ensures !t.rx.role.sender && t.tx.role.sender && Inv(t.rx, t.tx, t.rx.role.nonce)
    ensures t.rx.role == s.ctl.rx.role.(pc := After(s.ctl.rx.role.pc)) && t.tx.role == s.ctl.tx.role
  {
    ControlInv(s.ctl, RX_LOCAL, t);
  }

  lemma TxLocal(s: System, t: State)
    requires InvOf(s) && Enabled(s.ctl, TX_LOCAL) && t == Next(s.ctl, TX_LOCAL)
    ensures !t.rx.role.sender && t.tx.role.sender && Inv(t.rx, t.tx, t.rx.role.nonce)
    ensures t.tx.role == s.ctl.tx.role.(pc := After(s.ctl.tx.role.pc)) && t.rx.role == s.ctl.rx.role
  {
    ControlInv(s.ctl, TX_LOCAL, t);
  }

  predicate RxSupervises(a: Act) {
    a in {RxPrepared, RxStops, RxAllHeard, RxReleases, RxReaped, RxStopsLoader}
  }

  /** What the supervisor's progress needs from the children, pc by pc. */
  lemma RxAdvances(rx: Role, cs: seq<Receiver>, flows: nat, told: bool, rx': Role)
    requires RxOk(rx, cs, flows, told) && rx' == rx.(pc := After(rx.pc))
    requires rx.pc == RxPrepare ==> |cs| == flows
    requires rx.pc == RxAwait ==> AllHeard(cs)
    requires rx.pc == RxReap ==> AllReaped(cs)
    requires rx.pc in {RxPrepare, RxRequestStops, RxAwait, RxRelease, RxReap, RxStopPipeline} && !rx.failed
    ensures rx.pc in {RxPrepare, RxAwait, RxReap} ==> RxOk(rx', cs, flows, told)
    ensures rx.pc == RxRequestStops ==> RxOk(rx', TermAll(cs), flows, told)
    ensures rx.pc == RxStopPipeline ==> RxOk(rx', cs, flows, true)
    ensures rx.pc == RxRelease ==> RxOk(rx', Usr1All(cs), flows, told)
  {
  }

  lemma RxSupervisorKeepsInv(s: System, a: Act, s': System)
    requires InvOf(s) && RxSupervises(a) && ActEnabled(s, a) && s' == ActNext(s, a)
    ensures InvOf(s')
  {
    RxLocal(s, s'.ctl);
    RxAdvances(s.ctl.rx.role, s.receivers, |s.counts|, s.loaderTold, s'.ctl.rx.role);
  }

  /** One receiver, or the supervisor's view of it, moves on. */
  lemma OneReceiverMoves(rx: Role, cs: seq<Receiver>, flows: nat, loaderTold: bool, i: nat, c: Receiver)
    requires RxOk(rx, cs, flows, loaderTold) && i < |cs| && ReceiverOk(c)
    requires c.usr1 == cs[i].usr1 && c.term == cs[i].term && (cs[i].heard ==> c.heard) && (cs[i].reaped ==> c.reaped)
    ensures RxOk(rx, cs[i := c], flows, loaderTold)
  {
  }

  lemma ReceiverStepOk(c: Receiver, step: ReceiverStep, c': Receiver)
    requires ReceiverOk(c) && ReceiverEnabled(c, step) && c' == ReceiverNext(c, step)
    ensures ReceiverOk(c') && c'.usr1 == c.usr1 && c'.term == c.term && c'.heard == c.heard && c'.reaped == c.reaped
  {
  }

  lemma SignalsKeepRx(rx: Role, cs: seq<Receiver>, flows: nat, loaderTold: bool)
    requires RxOk(rx, cs, flows, loaderTold)
    ensures rx.failed ==> RxOk(rx, TermAll(cs), flows, loaderTold) && RxOk(rx, Usr1All(cs), flows, loaderTold)
  {
  }

  lemma SpawnKeepsRx(rx: Role, cs: seq<Receiver>, flows: nat, loaderTold: bool)
    requires RxOk(rx, cs, flows, loaderTold) && !rx.failed && rx.pc == RxPrepare
    ensures RxOk(rx, cs + [NewReceiver()], flows, loaderTold)
  {
  }

  predicate RxTouchesChildren(a: Act) {
    a in {SpawnReceiver, CleanTerm, CleanUsr1, CleanLoader} || a.Hear? || a.Reap? || a.ReceiverDo?
  }

  lemma ChildrenKeepClean(s: System, a: Act, s': System)
    requires CleanOk(s) && RxTouchesChildren(a) && ActEnabled(s, a) && s' == ActNext(s, a)
    ensures CleanOk(s')
  {
    if a.ReceiverDo? {
      assert s'.receivers == s.receivers[a.i := ReceiverNext(s.receivers[a.i], a.r)];
    }
  }

  lemma ChildrenKeepInv(s: System, a: Act, s': System)
    requires InvOf(s) && RxTouchesChildren(a) && ActEnabled(s, a) && s' == ActNext(s, a)
    ensures InvOf(s')
  {
    ChildrenKeepClean(s, a, s');
    ChildrenKeepRx(s, a, s');
    assert s'.ctl == s.ctl && s'.senders == s.senders && s'.counts == s.counts && s'.started == s.started;
  }

  lemma ChildrenKeepRx(s: System, a: Act, s': System)
    requires RxOk(s.ctl.rx.role, s.receivers, |s.counts|, s.loaderTold) && RxTouchesChildren(a) && ActEnabled(s, a) && s' == ActNext(s, a)
    ensures RxOk(s'.ctl.rx.role, s'.receivers, |s'.counts|, s'.loaderTold)
  {
    var rx, cs, flows, told := s.ctl.rx.role, s.receivers, |s.counts|, s.loaderTold;
    match a
    case SpawnReceiver => SpawnKeepsRx(rx, cs, flows, told);
    case CleanTerm => SignalsKeepRx(rx, cs, flows, told);
    case CleanUsr1 => SignalsKeepRx(rx, cs, flows, told);
    case CleanLoader =>
    case Hear(i) => OneReceiverMoves(rx, cs, flows, told, i, s'.receivers[i]);
    case Reap(i) => OneReceiverMoves(rx, cs, flows, told, i, s'.receivers[i]);
    case ReceiverDo(i, step) =>
      ReceiverStepOk(cs[i], step, s'.receivers[i]);
      OneReceiverMoves(rx, cs, flows, told, i, s'.receivers[i]);
  }

  lemma RxBeginsKeepsInv(s: System, s': System)
    requires InvOf(s) && ActEnabled(s, RxBegins) && s' == ActNext(s, RxBegins)
    ensures InvOf(s')
  {
    ControlInv(s.ctl, RX_BEGIN, s'.ctl);
    OtherRoleUntouched(s.ctl, RX_BEGIN, s'.ctl);
  }

  // ----- the sending supervisor's steps

  lemma TxBeginsKeepsInv(s: System, s': System)
    requires InvOf(s) && ActEnabled(s, TxBegins) && s' == ActNext(s, TxBegins)
    ensures InvOf(s')
  {
    ControlInv(s.ctl, TX_BEGIN, s'.ctl);
    OtherRoleUntouched(s.ctl, TX_BEGIN, s'.ctl);
  }

  lemma TxAdvances(tx: Role, cs: seq<Sender>, counts: seq<nat>, started: bool, tx': Role)
    requires TxOk(tx, cs, counts, started) && tx' == tx.(pc := After(tx.pc))
    ensures tx.pc == TxAwait && AllSendersHeard(cs) ==> TxOk(tx', cs, counts, started)
    ensures tx.pc == TxSpawn ==> TxOk(tx', NewSenders(|counts|), counts, false)
    ensures tx.pc == TxPublishStart ==> TxOk(tx', cs, counts, true)
  {
  }

  lemma TxSupervisorKeepsTx(s: System, a: Act, s': System)
    requires TxOk(s.ctl.tx.role, s.senders, s.counts, s.started)
    requires a in {TxSpawns, TxPublishes, TxAllHeard} && ActEnabled(s, a) && s' == ActNext(s, a)
    ensures TxOk(s'.ctl.tx.role, s'.senders, s'.counts, s'.started)
  {
    TxAdvances(s.ctl.tx.role, s.senders, s.counts, s.started, s'.ctl.tx.role);
    match a
    case TxSpawns =>
    case TxPublishes =>
    case TxAllHeard =>
  }

  lemma TxSupervisorKeepsInv(s: System, a: Act, s': System)
    requires InvOf(s) && a in {TxSpawns, TxPublishes, TxAllHeard} && ActEnabled(s, a) && s' == ActNext(s, a)
    ensures InvOf(s')
  {
    TxLocal(s, s'.ctl);
    TxSupervisorKeepsTx(s, a, s');
    assert s'.receivers == s.receivers && s'.loaderTold == s.loaderTold && s'.counts == s.counts;
  }

  lemma OneSenderMoves(tx: Role, cs: seq<Sender>, counts: seq<nat>, started: bool, i: nat, c: Sender)
    requires TxOk(tx, cs, counts, started) && i < |cs| && SenderOk(c, counts[i]) && (cs[i].heard ==> c.heard)
    requires !started ==> c.attempted == 0 && c.byte != OkByte
    ensures TxOk(tx, cs[i := c], counts, started)
  {
  }

  lemma SendersKeepInv(s: System, a: Act, s': System)
    requires InvOf(s) && (a.HearSender? || a.SenderDo?) && ActEnabled(s, a) && s' == ActNext(s, a)
    ensures InvOf(s')
  {
    assert s'.ctl == s.ctl && s'.receivers == s.receivers && s'.counts == s.counts;
    assert SenderOk(s.senders[a.i], s.counts[a.i]);
    OneSenderMoves(s.ctl.tx.role, s.senders, s.counts, s.started, a.i, s'.senders[a.i]);
  }

  predicate ByTxSide(a: Act) {
    a in {TxBegins, TxSpawns, TxPublishes, TxAllHeard} || a.HearSender? || a.SenderDo?
  }

  lemma TxSideKeepsInv(s: System, a: Act, s': System)
    requires InvOf(s) && ByTxSide(a) && ActEnabled(s, a) && s' == ActNext(s, a)
    ensures InvOf(s')
  {
    if a == TxBegins {
      TxBeginsKeepsInv(s, s');
    } else if a.HearSender? || a.SenderDo? {
      SendersKeepInv(s, a, s');
    } else {
      TxSupervisorKeepsInv(s, a, s');
    }
  }

  lemma RxSideKeepsInv(s: System, a: Act, s': System)
    requires InvOf(s) && !ByTxSide(a) && !a.Control? && ActEnabled(s, a) && s' == ActNext(s, a)
    ensures InvOf(s')
  {
    if a == RxBegins {
      RxBeginsKeepsInv(s, s');
    } else if RxSupervises(a) {
      RxSupervisorKeepsInv(s, a, s');
    } else {
      ChildrenKeepInv(s, a, s');
    }
  }

  lemma StepKeepsInvOf(s: System, a: Act, s': System)
    requires InvOf(s) && ActEnabled(s, a) && s' == ActNext(s, a)
    ensures InvOf(s')
  {
    if a.Control? {
      ControlKeepsInv(s, a.act, s');
    } else if ByTxSide(a) {
      TxSideKeepsInv(s, a, s');
    } else {
      RxSideKeepsInv(s, a, s');
    }
  }

  lemma {:induction false} RunKeepsInvOf(s: System, run: seq<Act>)
    requires InvOf(s) && IsRunOf(s, run)
    ensures InvOf(FinalOf(s, run))
    decreases |run|
  {
    if run != [] {
      StepKeepsInvOf(s, run[0], ActNext(s, run[0]));
      RunKeepsInvOf(ActNext(s, run[0]), run[1..]);
    }
  }

  lemma InitiallyInvOf(c: Config, d: Config, nonce: int, counts: seq<nat>)
    ensures InvOf(InitOf(c, d, nonce, counts))
  {
  }

  lemma ReachableInvOf(s: System)
    requires ReachableSystem(s)
    ensures InvOf(s)
  {
    var c, d, nonce, counts, run :|
      IsRunOf(InitOf(c, d, nonce, counts), run) && FinalOf(InitOf(c, d, nonce, counts), run) == s;
    InitiallyInvOf(c, d, nonce, counts);
    RunKeepsInvOf(InitOf(c, d, nonce, counts), run);
  }

  // ----- the theorems

  /** While the receiving supervisor waits for its receivers to be reaped, the sending one
      stands in the same run, right behind its STOP. */
  lemma SenderWaitsForDone(a: Half, b: Half, nonce: int)
    requires Inv(a, b, nonce) && !a.role.sender && a.role.pc == RxReap
    ensures b.role.index == a.role.index && b.role.pc == TxRecvDone
  {
    var base := 7 * a.role.index;
    assert (base + 4) / 7 == a.role.index && (base + 4) % 7 == 4;
    assert (base + 5) / 7 == a.role.index && (base + 5) % 7 == 5;
    assert FromSender(base + 4) && !FromSender(base + 5);
    PassedTogether(a, b, base + 4);
    assert Behind(b.role) == base + 5;
  }

  /** In a run whose receiving side has not failed, a receiver that reported success writes
      its records only after every sender attempted its last packet and every receiver
      finished draining. */
  lemma NothingSavedBeforeAllDrained(s: System, i: nat)
    requires ReachableSystem(s) && !s.ctl.rx.role.failed
    requires ActEnabled(s, ReceiverDo(i, Save)) && s.receivers[i].byte == OkByte
    ensures |s.receivers| == |s.senders| == |s.counts| && s.ctl.tx.role.index == s.ctl.rx.role.index
    ensures forall j | 0 <= j < |s.counts| :: s.receivers[j].drained && s.senders[j].attempted == s.counts[j]
  {
    ReachableInvOf(s);
    assert s.receivers[i].usr1 && !s.receivers[i].reaped;
    assert s.ctl.rx.role.pc == RxReap;
    SenderWaitsForDone(s.ctl.rx, s.ctl.tx, s.ctl.rx.role.nonce);
  }

  /** A packet is sent only while every receiver of the same run is there and none has been told
      to stop, unless the receiving side failed. */
  lemma NothingSentBeforeAllCapture(s: System, i: nat)
    requires ReachableSystem(s) && !s.ctl.rx.role.failed && ActEnabled(s, SenderDo(i, Attempt))
    ensures s.ctl.rx.role.index == s.ctl.tx.role.index && s.ctl.rx.role.pc in {RxRecvStarted, RxRecvStop}
    ensures |s.receivers| == |s.counts| && forall j | 0 <= j < |s.receivers| :: !s.receivers[j].term
  {
    ReachableInvOf(s);
    assert SenderOk(s.senders[i], s.counts[i]) && !s.senders[i].heard;
    StartedTogether(s.ctl.rx, s.ctl.tx, s.ctl.rx.role.nonce);
  }

  /** Between START and STOP the two supervisors are in the same run. */
  lemma StartedTogether(a: Half, b: Half, nonce: int)
    requires Inv(a, b, nonce) && !a.role.sender && b.role.pc in {TxSendStarted, TxAwait}
    ensures a.role.index == b.role.index && a.role.pc in {RxRecvStarted, RxRecvStop}
  {
    var base := 7 * b.role.index;
    assert (base + 2) / 7 == b.role.index && (base + 2) % 7 == 2;
    assert (base + 4) / 7 == b.role.index && (base + 4) % 7 == 4;
    assert !FromSender(base + 2) && FromSender(base + 4);
    PassedTogether(b, a, base + 2);
    assert base + 3 <= Behind(a.role) <= base + 4;
  }

  // ----- a child that reports failure

  /** Some child of this run, receiver or sender, has reported failure. */
  predicate ReceiverFailed(s: System, i: nat) { i < |s.receivers| && s.receivers[i].byte == BadByte }

  predicate SenderFailed(s: System, i: nat) { i < |s.senders| && s.senders[i].byte == BadByte }

  /** The supervisor of a failed child gets no further than its wait. */
  lemma HeldUp(s: System, i: nat)
    requires InvOf(s)
    ensures ReceiverFailed(s, i) ==> s.ctl.rx.role.pc != RxRelease && !PastRelease(s.ctl.rx.role.pc)
    ensures SenderFailed(s, i) ==> !PastSending(s.ctl.tx.role.pc) && s.ctl.tx.role.pc !in {Idle, TxSpawn}
    ensures ReceiverFailed(s, i) ==> ReceiverOk(s.receivers[i])
    ensures SenderFailed(s, i) ==> i < |s.counts| && SenderOk(s.senders[i], s.counts[i])
  {
    assert ReceiverFailed(s, i) ==> ReceiverOk(s.receivers[i]);
    assert SenderFailed(s, i) ==> SenderOk(s.senders[i], s.counts[i]);
  }

  /** Reporting failure is for good. */
  lemma FailureStays(s: System, a: Act, s': System, i: nat)
    requires ActEnabled(s, a) && s' == ActNext(s, a) && a != RxBegins
    requires ReceiverFailed(s, i) && ReceiverOk(s.receivers[i])
    ensures ReceiverFailed(s', i)
  {
    if a.ReceiverDo? {
      assert s'.receivers == s.receivers[a.i := ReceiverNext(s.receivers[a.i], a.r)];
    }
  }

  lemma SenderFailureStays(s: System, a: Act, s': System, i: nat)
    requires ActEnabled(s, a) && s' == ActNext(s, a) && a !in {TxBegins, TxSpawns}
    requires SenderFailed(s, i) && i < |s.counts| && SenderOk(s.senders[i], s.counts[i])
    ensures SenderFailed(s', i) && s'.senders[i].attempted == s.senders[i].attempted
  {
  }

  lemma RecordsOnlyWhenRecording(s: System, a: Act, s': System)
    requires ActEnabled(s, a) && s' == ActNext(s, a)
    ensures OpAt(s.ctl.rx.role.pc) != RecordOp ==> s'.ctl.rx.role.completed == s.ctl.rx.role.completed
    ensures OpAt(s.ctl.tx.role.pc) != RecordOp ==> s'.ctl.tx.role.completed == s.ctl.tx.role.completed
  {
    RoleStepTaken(s, a, s');
    if RoleStep(a) != [] {
      CompletedStays(s.ctl, RoleStep(a)[0]);
    }
  }

  lemma CompletedStays(s: State, act: Action)
    requires Enabled(s, act)
    ensures OpAt(s.rx.role.pc) != RecordOp ==> Next(s, act).rx.role.completed == s.rx.role.completed
    ensures OpAt(s.tx.role.pc) != RecordOp ==> Next(s, act).tx.role.completed == s.tx.role.completed
  {
  }

  lemma ReceiverFailureLasts(s: System, a: Act, s': System, i: nat)
    requires ActEnabled(s, a) && s' == ActNext(s, a) && ReceiverFailed(s, i) && ReceiverOk(s.receivers[i])
    requires !PastRelease(s.ctl.rx.role.pc) && !s.ctl.rx.role.sender && PcOk(s.ctl.rx.role)
    ensures ReceiverFailed(s', i) && s'.ctl.rx.role.completed == s.ctl.rx.role.completed
  {
    RecordsOnlyWhenRecording(s, a, s');
    FailureStays(s, a, s', i);
  }

  lemma SenderFailureLasts(s: System, a: Act, s': System, i: nat)
    requires ActEnabled(s, a) && s' == ActNext(s, a) && SenderFailed(s, i) && i < |s.counts| && SenderOk(s.senders[i], s.counts[i])
    requires !PastSending(s.ctl.tx.role.pc) && s.ctl.tx.role.pc !in {Idle, TxSpawn} && s.ctl.tx.role.sender && PcOk(s.ctl.tx.role)
    ensures SenderFailed(s', i) && s'.senders[i].attempted == s.senders[i].attempted
    ensures s'.ctl.tx.role.completed == s.ctl.tx.role.completed
  {
    RecordsOnlyWhenRecording(s, a, s');
    SenderFailureStays(s, a, s', i);
  }

  lemma {:induction false} FailureStaysOn(s: System, run: seq<Act>, i: nat)
    requires InvOf(s) && IsRunOf(s, run)
    ensures ReceiverFailed(s, i) ==> FinalOf(s, run).ctl.rx.role.completed == s.ctl.rx.role.completed
    ensures SenderFailed(s, i) ==> FinalOf(s, run).ctl.tx.role.completed == s.ctl.tx.role.completed
    decreases |run|
  {
    if run != [] {
      var s' := ActNext(s, run[0]);
      HeldUp(s, i);
      if ReceiverFailed(s, i) {
        ReceiverFailureLasts(s, run[0], s', i);
      }
      if SenderFailed(s, i) {
        SenderFailureLasts(s, run[0], s', i);
      }
      StepKeepsInvOf(s, run[0], s');
      FailureStaysOn(s', run[1..], i);
    }
  }

  /** Once a child has reported failure, its supervisor completes neither this run nor a later
      one, whatever happens. */
  lemma FailedChildEndsTheRuns(s: System, a: Act, run: seq<Act>)
    requires ReachableSystem(s) && ActEnabled(s, a) && IsRunOf(ActNext(s, a), run)
    ensures a.ReceiverDo? && a.r == ReportFailure ==> FinalOf(ActNext(s, a), run).ctl.rx.role.completed == s.ctl.rx.role.completed
    ensures a.SenderDo? && a.t == ReportUnsent ==> FinalOf(ActNext(s, a), run).ctl.tx.role.completed == s.ctl.tx.role.completed
  {
    ReachableStep(s, a);
    if a.ReceiverDo? || a.SenderDo? {
      FailureStaysOn(ActNext(s, a), run, a.i);
    }
  }

  lemma ReachableStep(s: System, a: Act)
    requires ReachableSystem(s) && ActEnabled(s, a)
    ensures InvOf(ActNext(s, a))
  {
    ReachableInvOf(s);
    StepKeepsInvOf(s, a, ActNext(s, a));
  }

  /** Unless the receiving side failed, every receiver has TERM exactly from the request to
      stop on, and USR1 exactly from the release on. */
  lemma ReleasedExactly(s: System, i: nat)
    requires ReachableSystem(s) && i < |s.receivers| && !s.ctl.rx.role.failed
    ensures s.receivers[i].usr1 <==> PastRelease(s.ctl.rx.role.pc)
    ensures s.receivers[i].term <==> PastStops(s.ctl.rx.role.pc)
  {
    ReachableInvOf(s);
  }

  /** On every path, healthy or failing, the loader is told to stop only after every
      receiver child has been reaped. */
  lemma LoaderToldLast(s: System)
    requires ReachableSystem(s) && s.loaderTold
    ensures forall i | 0 <= i < |s.receivers| :: s.receivers[i].reaped && s.receivers[i].phase == Gone
  {
    ReachableInvOf(s);
  }

  /** ... and it has been told, in every run that got as far as being recorded. */
  lemma LoaderToldBeforeRecord(s: System)
    requires ReachableSystem(s) && (s.ctl.rx.role.pc in {RxRecord, RxMark} || (s.ctl.rx.role.pc == Idle && s.ctl.rx.role.index > 0))
    ensures s.loaderTold
  {
    ReachableInvOf(s);
  }

  /** A receiver that says it drained was told to stop and captures no longer. */
  lemma DrainedMeansToldToStop(s: System, i: nat)
    requires ReachableSystem(s) && i < |s.receivers| && s.receivers[i].drained
    ensures s.receivers[i].term && s.receivers[i].phase != Capturing
  {
    ReachableInvOf(s);
    assert ReceiverOk(s.receivers[i]);
  }

  /** A child that is gone does nothing any more, and a sender that has reported sends nothing. */
  lemma GoneIsGone(c: Receiver, d: Sender, count: nat)
    ensures ReceiverEnabled(c, Exit) ==> forall step :: !ReceiverEnabled(ReceiverNext(c, Exit), step)
    ensures SenderEnabled(d, count, ExitSender) ==> forall step :: !SenderEnabled(SenderNext(d, ExitSender), count, step)
    ensures d.byte != NoByte ==> forall step | SenderEnabled(d, count, step) :: step == ExitSender
  {
  }

  // ----- one receiver and its two signals

  /** What can happen to a receiver in which nothing fails: a step of its own program, or
      one of the two signals. */
  datatype ChildEvent = Own(step: ReceiverStep) | GetsTerm | GetsUsr1

  predicate CanStep(c: Receiver, step: ReceiverStep) {
    ReceiverEnabled(c, step) && step != ReportFailure && (step == Exit ==> c.phase == Saved)
  }

  predicate EventOk(c: Receiver, e: ChildEvent) {
    e.Own? ==> CanStep(c, e.step)
  }

  function AfterEvent(c: Receiver, e: ChildEvent): Receiver {
    match e
    case Own(step) => ReceiverNext(c, step)
    case GetsTerm => Termed(c)
    case GetsUsr1 => Usr1ed(c)
  }

  predicate IsLife(c: Receiver, es: seq<ChildEvent>)
    decreases |es|
  {
    es == [] || (EventOk(c, es[0]) && IsLife(AfterEvent(c, es[0]), es[1..]))
  }

  function LifeEnd(c: Receiver, es: seq<ChildEvent>): Receiver
    requires IsLife(c, es)
    decreases |es|
  {
    if es == [] then c else LifeEnd(AfterEvent(c, es[0]), es[1..])
  }

  function OwnSteps(es: seq<ChildEvent>): nat {
    if es == [] then 0 else (if es[0].Own? then 1 else 0) + OwnSteps(es[1..])
  }

  function StepsToGo(phase: Phase): nat {
    match phase
    case Capturing => 4
    case Drained => 3
    case Reported => 2
    case Saved => 1
    case Gone => 0
  }

  /** A receiver can go on exactly unless it is gone, captures without TERM, or holds its
      records without USR1. */
  lemma BlockedExactly(c: Receiver)
    ensures (forall step :: !CanStep(c, step)) <==>
              c.phase == Gone || (c.phase == Capturing && !c.term) || (c.phase == Reported && c.byte == OkByte && !c.usr1)
  {
    assert c.phase == Capturing && c.term ==> CanStep(c, Drain);
    assert c.phase == Drained ==> CanStep(c, Report);
    assert c.phase == Reported && (c.byte == OkByte ==> c.usr1) ==> CanStep(c, Save);
    assert c.phase == Saved ==> CanStep(c, Exit);
  }

  lemma {:induction false} LifeGoesOn(c: Receiver, es: seq<ChildEvent>)
    requires IsLife(c, es) && ReceiverOk(c)
    ensures var d := LifeEnd(c, es);
            && ReceiverOk(d) && OwnSteps(es) + StepsToGo(d.phase) == StepsToGo(c.phase)
            && (d.term <==> c.term || GetsTerm in es) && (d.usr1 <==> c.usr1 || GetsUsr1 in es)
            && (c.phase in {Capturing, Drained} && d.phase !in {Capturing, Drained} ==> d.byte == OkByte)
            && (c.phase !in {Capturing, Drained} ==> d.byte == c.byte)
    decreases |es|
  {
    if es != [] {
      EventGoesOn(c, es[0]);
      LifeGoesOn(AfterEvent(c, es[0]), es[1..]);
    }
  }

  lemma EventGoesOn(c: Receiver, e: ChildEvent)
    requires EventOk(c, e) && ReceiverOk(c)
    ensures var d := AfterEvent(c, e);
            && ReceiverOk(d) && (if e.Own? then 1 else 0) + StepsToGo(d.phase) == StepsToGo(c.phase)
            && (d.term <==> c.term || e == GetsTerm) && (d.usr1 <==> c.usr1 || e == GetsUsr1)
            && (c.phase in {Capturing, Drained} && d.phase !in {Capturing, Drained} ==> d.byte == OkByte)
            && (c.phase !in {Capturing, Drained} ==> d.byte == c.byte && d.phase !in {Capturing, Drained})
  {
  }

  /** TERM and USR1 in either order, at any point of a receiver's life and between any of its
      own steps: it takes at most four steps of its own, is never held up again, and ends
      gone, having drained, reported success and written its records. */
  lemma BothSignalsRelease(c: Receiver, es: seq<ChildEvent>)
    requires IsLife(c, es) && ReceiverOk(c) && GetsTerm in es && GetsUsr1 in es
    ensures var d := LifeEnd(c, es);
            && OwnSteps(es) <= 4
            && ((forall step :: !CanStep(d, step)) <==> d.phase == Gone)
            && (c.phase in {Capturing, Drained} && d.phase == Gone ==> d.byte == OkByte && d.drained && OwnSteps(es) >= 3)
  {
    LifeGoesOn(c, es);
    BlockedExactly(LifeEnd(c, es));
  }
}
