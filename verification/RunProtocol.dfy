/** The control connection between the two `ace-run` roles (experiment/ace-run.c).

    Each role is a process that sends and receives frames in a fixed order and may fail
    at any point: a timeout, a signal, a child failure or a rejected frame.  A frame is
    written and read as a whole.  The digest of a configuration stands for the
    configuration, and a run identifier is determined by the configuration and the run
    index. */
module RunProtocol {

  datatype Kind = Hello | RxReady | TxReady | Start | Started | Stop | Done | Ack | Fail

  datatype Config = Config(id: nat, runs: nat)

  datatype Frame = Frame(kind: Kind, index: nat, nonce: int, config: Config)

  /** The bytes one role has sent and the other has not read, and whether it hung up. */
  datatype Channel = Channel(frames: seq<Frame>, closed: bool)

  /** Where a role stands.  `Idle` is the head of the run loop. */
  datatype Pc =
    | Idle
    | RxHelloIn | RxHelloOut
    | RxPrepare | RxSendReady | RxRecvReady | RxSendStart | RxRecvStarted | RxRecvStop
    | RxRequestStops | RxAwait | RxRelease | RxReap | RxSendDone | RxRecvAck | RxStopPipeline | RxRecord | RxMark
    | TxHelloOut | TxHelloIn
    | TxPrepare | TxRecvReady | TxSpawn | TxSendReady | TxRecvStart | TxPublishStart | TxSendStarted
    | TxAwait | TxSendStop | TxRecvDone | TxFlush | TxRecord | TxSendAck | TxMark

  datatype Role = Role(
    sender: bool, config: Config, index: nat, pc: Pc, nonce: int,
    completed: nat, marked: nat, failed: bool, announced: bool)

  /** A role together with what it has sent. */
  datatype Half = Half(role: Role, outbox: Channel)

  datatype State = State(rx: Half, tx: Half)

  datatype Step =
    | Send | Receive | Reject(announce: bool) | Local | AbortOnInput(announce: bool) | WriteCompleted | WriteMarker
    | BeginRun | Finish | GiveUp(announce: bool) | HangUp

  datatype Action = Action(bySender: bool, step: Step)

  datatype Op = SendOp(kind: Kind) | RecvOp(kind: Kind) | LocalOp | AwaitOp | RecordOp | MarkOp | LoopOp

  function OpAt(pc: Pc): Op {
    match pc
    case RxHelloIn => RecvOp(Hello)
    case RxHelloOut => SendOp(Hello)
    case RxSendReady => SendOp(RxReady)
    case RxRecvReady => RecvOp(TxReady)
    case RxSendStart => SendOp(Start)
    case RxRecvStarted => RecvOp(Started)
    case RxRecvStop => RecvOp(Stop)
    case RxSendDone => SendOp(Done)
    case RxRecvAck => RecvOp(Ack)
    case TxHelloOut => SendOp(Hello)
    case TxHelloIn => RecvOp(Hello)
    case TxRecvReady => RecvOp(RxReady)
    case TxSendReady => SendOp(TxReady)
    case TxRecvStart => RecvOp(Start)
    case TxSendStarted => SendOp(Started)
    case TxSendStop => SendOp(Stop)
    case TxRecvDone => RecvOp(Done)
    case TxSendAck => SendOp(Ack)
    case RxAwait => AwaitOp
    case TxAwait => AwaitOp
    case RxRecord => RecordOp
    case TxRecord => RecordOp
    case RxMark => MarkOp
    case TxMark => MarkOp
    case Idle => LoopOp
    case _ => LocalOp
  }

  function After(pc: Pc): Pc {
    match pc
    case Idle => Idle
    case RxHelloIn => RxHelloOut
    case RxHelloOut => Idle
    case RxPrepare => RxSendReady
    case RxSendReady => RxRecvReady
    case RxRecvReady => RxSendStart
    case RxSendStart => RxRecvStarted
    case RxRecvStarted => RxRecvStop
    case RxRecvStop => RxRequestStops
    case RxRequestStops => RxAwait
    case RxAwait => RxRelease
    case RxRelease => RxReap
    case RxReap => RxSendDone
    case RxSendDone => RxRecvAck
    case RxRecvAck => RxStopPipeline
    case RxStopPipeline => RxRecord
    case RxRecord => RxMark
    case RxMark => Idle
    case TxHelloOut => TxHelloIn
    case TxHelloIn => Idle
    case TxPrepare => TxRecvReady
    case TxRecvReady => TxSpawn
    case TxSpawn => TxSendReady
    case TxSendReady => TxRecvStart
    case TxRecvStart => TxPublishStart
    case TxPublishStart => TxSendStarted
    case TxSendStarted => TxAwait
    case TxAwait => TxSendStop
    case TxSendStop => TxRecvDone
    case TxRecvDone => TxFlush
    case TxFlush => TxRecord
    case TxRecord => TxSendAck
    case TxSendAck => TxMark
    case TxMark => Idle
  }

  /** message(): what a reader accepts.  Neither side checks the nonce of a greeting; the
      sender adopts it. */
  predicate Accepts(r: Role, kind: Kind, f: Frame) {
    && f.index == r.index && f.config == r.config
    && (kind == Hello || f.nonce == r.nonce)
    && f.kind == kind
  }

  function Written(r: Role, kind: Kind): Frame {
    Frame(kind, r.index, r.nonce, r.config)
  }

  /** A run that failed is announced, unless the FAIL frame itself cannot be sent; outside a
      run nothing is announced. */
  predicate MayAnnounce(a: Half, announce: bool) {
    announce ==> a.role.index > 0 && a.role.pc != Idle && !a.outbox.closed
  }

  function Failed(a: Half, announce: bool): Half {
    if announce then Half(a.role.(failed := true, announced := true), a.outbox.(frames := a.outbox.frames + [Written(a.role, Fail)]))
    else a.(role := a.role.(failed := true))
  }

  predicate StepEnabled(a: Half, b: Half, step: Step) {
    var r := a.role;
    match step
    case Send => !r.failed && OpAt(r.pc).SendOp? && !a.outbox.closed
    case Receive => !r.failed && OpAt(r.pc).RecvOp? && b.outbox.frames != [] && Accepts(r, OpAt(r.pc).kind, b.outbox.frames[0])
    case Reject(announce) =>
      && !r.failed && OpAt(r.pc).RecvOp? && b.outbox.frames != [] && !Accepts(r, OpAt(r.pc).kind, b.outbox.frames[0])
      && MayAnnounce(a, announce)
    case Local => !r.failed && OpAt(r.pc) in {LocalOp, AwaitOp}
    case AbortOnInput(announce) =>
      !r.failed && OpAt(r.pc) == AwaitOp && (b.outbox.frames != [] || b.outbox.closed) && MayAnnounce(a, announce)
    case WriteCompleted => !r.failed && OpAt(r.pc) == RecordOp
    case WriteMarker => !r.failed && OpAt(r.pc) == MarkOp
    case BeginRun => !r.failed && r.pc == Idle && r.index < r.config.runs && !a.outbox.closed
    case Finish => !r.failed && r.pc == Idle && r.index == r.config.runs && !a.outbox.closed
    case GiveUp(announce) => !r.failed && !a.outbox.closed && MayAnnounce(a, announce)
    case HangUp => r.failed && !a.outbox.closed
  }

  function FirstPc(sender: bool): Pc {
    if sender then TxPrepare else RxPrepare
  }

  /** The acting role and its outbox after the step ... */
  function StepSelf(a: Half, b: Half, step: Step): Half
    requires StepEnabled(a, b, step)
  {
    var r := a.role;
    match step
    case Send =>
      Half(r.(pc := After(r.pc)), a.outbox.(frames := a.outbox.frames + [Written(r, OpAt(r.pc).kind)]))
    case Receive =>
      a.(role := r.(pc := After(r.pc), nonce := if r.pc == TxHelloIn then b.outbox.frames[0].nonce else r.nonce))
    case Reject(announce) => Failed(a, announce)
    case Local => a.(role := r.(pc := After(r.pc)))
    case AbortOnInput(announce) => Failed(a, announce)
    case WriteCompleted => a.(role := r.(pc := After(r.pc), completed := r.index))
    case WriteMarker => a.(role := r.(pc := After(r.pc), marked := r.index))
    case BeginRun => a.(role := r.(pc := FirstPc(r.sender), index := r.index + 1))
    case Finish => a.(outbox := a.outbox.(closed := true))
    case GiveUp(announce) => Failed(a, announce)
    case HangUp => a.(outbox := a.outbox.(closed := true))
  }

  /** ... and what it took from the other one. */
  function StepPeer(b: Half, step: Step): Half
    requires step.Receive? || step.Reject? ==> b.outbox.frames != []
  {
    match step
    case Receive => b.(outbox := b.outbox.(frames := b.outbox.frames[1..]))
    case Reject(_) => b.(outbox := b.outbox.(frames := b.outbox.frames[1..]))
    case _ => b
  }

  predicate Enabled(s: State, act: Action) {
    if act.bySender then StepEnabled(s.tx, s.rx, act.step) else StepEnabled(s.rx, s.tx, act.step)
  }

  function Next(s: State, act: Action): State
    requires Enabled(s, act)
  {
    if act.bySender then State(StepPeer(s.rx, act.step), StepSelf(s.tx, s.rx, act.step))
    else State(StepSelf(s.rx, s.tx, act.step), StepPeer(s.tx, act.step))
  }

  function Init(rxConfig: Config, txConfig: Config, nonce: int): State {
    State(
      Half(Role(false, rxConfig, 0, RxHelloIn, nonce, 0, 0, false, false), Channel([], false)),
      Half(Role(true, txConfig, 0, TxHelloOut, 0, 0, 0, false, false), Channel([], false)))
  }

  predicate IsRun(s: State, run: seq<Action>)
    decreases |run|
  {
    run == [] || (Enabled(s, run[0]) && IsRun(Next(s, run[0]), run[1..]))
  }

  function Final(s: State, run: seq<Action>): State
    requires IsRun(s, run)
    decreases |run|
  {
    if run == [] then s else Final(Next(s, run[0]), run[1..])
  }

  ghost predicate Reachable(s: State) {
    exists rxConfig, txConfig, nonce, run ::
      IsRun(Init(rxConfig, txConfig, nonce), run) && Final(Init(rxConfig, txConfig, nonce), run) == s
  }

  // ----- both programs are the same list of exchanges

  // Exchange i belongs to run i / 7 and is its (i % 7)-th; the greeting takes the last
  // two places of run 0.

  function FromSender(i: nat): bool {
    if i / 7 == 0 then i == 5 else i % 7 in {1, 3, 4, 6}
  }

  function KindOf(i: nat): Kind {
    if i / 7 == 0 then Hello
    else match i % 7
      case 0 => RxReady
      case 1 => TxReady
      case 2 => Start
      case 3 => Started
      case 4 => Stop
      case 5 => Done
      case _ => Ack
  }

  /** How many exchanges of the current run are behind a role. */
  function Progress(pc: Pc): nat {
    match pc
    case Idle => 7
    case RxHelloIn => 5
    case RxHelloOut => 6
    case RxPrepare => 0
    case RxSendReady => 0
    case RxRecvReady => 1
    case RxSendStart => 2
    case RxRecvStarted => 3
    case RxRecvStop => 4
    case RxRequestStops => 5
    case RxAwait => 5
    case RxRelease => 5
    case RxReap => 5
    case RxSendDone => 5
    case RxRecvAck => 6
    case RxStopPipeline => 7
    case RxRecord => 7
    case RxMark => 7
    case TxHelloOut => 5
    case TxHelloIn => 6
    case TxPrepare => 0
    case TxRecvReady => 0
    case TxSpawn => 1
    case TxSendReady => 1
    case TxRecvStart => 2
    case TxPublishStart => 3
    case TxSendStarted => 3
    case TxAwait => 4
    case TxSendStop => 4
    case TxRecvDone => 5
    case TxFlush => 6
    case TxRecord => 6
    case TxSendAck => 6
    case TxMark => 7
  }

  function Behind(r: Role): nat {
    7 * r.index + Progress(r.pc)
  }

  predicate Greeting(pc: Pc) {
    pc in {RxHelloIn, RxHelloOut, TxHelloOut, TxHelloIn}
  }

  predicate SenderPc(pc: Pc) {
    pc in {TxHelloOut, TxHelloIn, TxPrepare, TxRecvReady, TxSpawn, TxSendReady, TxRecvStart, TxPublishStart,
           TxSendStarted, TxAwait, TxSendStop, TxRecvDone, TxFlush, TxRecord, TxSendAck, TxMark}
  }

  /** The pc belongs to the role, and to the greeting exactly in run 0. */
  predicate PcOk(r: Role) {
    && (r.pc != Idle ==> SenderPc(r.pc) == r.sender && (Greeting(r.pc) <==> r.index == 0))
  }

  /** The next operation of a role is its end of the exchange it stands before. */
  lemma OpIsExchange(r: Role)
    requires PcOk(r)
    ensures OpAt(r.pc).SendOp? ==> KindOf(Behind(r)) == OpAt(r.pc).kind && FromSender(Behind(r)) == r.sender
    ensures OpAt(r.pc).RecvOp? ==> KindOf(Behind(r)) == OpAt(r.pc).kind && FromSender(Behind(r)) != r.sender
    ensures OpAt(r.pc).SendOp? || OpAt(r.pc).RecvOp? ==> Behind(r) / 7 == r.index && Progress(After(r.pc)) == Progress(r.pc) + 1
    ensures OpAt(r.pc) in {LocalOp, AwaitOp, RecordOp, MarkOp} ==> Progress(After(r.pc)) == Progress(r.pc)
  {
    assert Progress(r.pc) < 7 ==> Behind(r) / 7 == r.index && Behind(r) % 7 == Progress(r.pc);
  }

  // ----- the invariant

  /** The frames of exchanges lo..hi as the role with this configuration writes them. */
  function Stream(config: Config, nonce: int, lo: nat, hi: nat): (s: seq<Frame>)
    ensures |s| == if lo < hi then hi - lo else 0
    decreases hi - lo
  {
    if lo >= hi then [] else [Frame(KindOf(lo), lo / 7, if lo == 5 then 0 else nonce, config)] + Stream(config, nonce, lo + 1, hi)
  }

  lemma {:induction false} StreamGrows(config: Config, nonce: int, lo: nat, hi: nat)
    requires lo <= hi
    ensures Stream(config, nonce, lo, hi + 1) ==
            Stream(config, nonce, lo, hi) + [Frame(KindOf(hi), hi / 7, if hi == 5 then 0 else nonce, config)]
    decreases hi - lo
  {
    if lo < hi {
      StreamGrows(config, nonce, lo + 1, hi);
    } else {
      assert Stream(config, nonce, hi + 1, hi + 1) == [];
    }
  }

  function FailTail(r: Role): seq<Frame> {
    if r.announced then [Written(r, Fail)] else []
  }

  /** What `a` has sent and `b` not yet read is exactly the exchanges between them. */
  predicate Linked(a: Half, b: Half, nonce: int) {
    a.outbox.frames == Stream(a.role.config, nonce, Behind(b.role), Behind(a.role)) + FailTail(a.role)
  }

  /** Whatever a role has passed and its peer has not, it sent. */
  ghost predicate Ahead(a: Half, b: Half) {
    forall i: nat | Behind(b.role) <= i < Behind(a.role) :: FromSender(i) == a.role.sender
  }

  predicate RecordsOk(r: Role) {
    && r.completed == (if r.pc == Idle || r.pc in {RxMark, TxMark, TxSendAck} || r.index == 0 then r.index else r.index - 1)
    && r.marked == (if r.pc == Idle || r.index == 0 then r.index else r.index - 1)
    && r.index <= r.config.runs
  }

  predicate SideOk(a: Half, nonce: int) {
    var r := a.role;
    && PcOk(r) && RecordsOk(r)
    && r.nonce == (if r.sender && Behind(r) < 7 then 0 else nonce)
    && (r.announced ==> r.failed)
    && (a.outbox.closed && !r.failed ==> r.pc == Idle && r.index == r.config.runs)
  }

  /** `b` never rejects while `a` is healthy and configured alike; and if it rejected one
      frame the link is void. */
  ghost predicate Inv(a: Half, b: Half, nonce: int) {
    && a.role.sender != b.role.sender
    && SideOk(a, nonce) && SideOk(b, nonce)
    && Ahead(a, b) && Ahead(b, a)
    && (!b.role.failed ==> Linked(a, b, nonce))
    && (!a.role.failed ==> Linked(b, a, nonce))
  }

  // ----- every step keeps it

  lemma SenderSideOk(a: Half, b: Half, nonce: int, a': Half)
    requires SideOk(a, nonce) && StepEnabled(a, b, Send) && a' == StepSelf(a, b, Send)
    ensures SideOk(a', nonce) && Behind(a'.role) == Behind(a.role) + 1 && FromSender(Behind(a.role)) == a.role.sender
    ensures a'.role.sender == a.role.sender && a'.role.config == a.role.config && a'.role.failed == a.role.failed == false
    ensures var n := Behind(a.role);
            a'.outbox.frames == a.outbox.frames + [Frame(KindOf(n), n / 7, if n == 5 then 0 else nonce, a.role.config)]
    ensures FailTail(a'.role) == FailTail(a.role) == []
  {
    OpIsExchange(a.role);
  }

  lemma SendKeepsInv(a: Half, b: Half, nonce: int, a': Half)
    requires Inv(a, b, nonce) && StepEnabled(a, b, Send) && a' == StepSelf(a, b, Send)
    ensures Inv(a', b, nonce)
  {
    var n := Behind(a.role);
    SenderSideOk(a, b, nonce, a');
    assert Behind(b.role) <= n;
    StreamGrows(a.role.config, nonce, Behind(b.role), n);
  }

  /** A frame that is accepted is the peer's end of the very exchange the reader stands
      before. */
  lemma HeadIsExchange(a: Half, b: Half, nonce: int)
    requires Linked(b, a, nonce) && PcOk(a.role) && StepEnabled(a, b, Receive)
    ensures Behind(a.role) < Behind(b.role)
    ensures b.outbox.frames[0] == Stream(b.role.config, nonce, Behind(a.role), Behind(b.role))[0]
    ensures b.outbox.frames[1..] == Stream(b.role.config, nonce, Behind(a.role) + 1, Behind(b.role)) + FailTail(b.role)
  {
    var n := Behind(a.role);
    assert n < Behind(b.role);
    assert Stream(b.role.config, nonce, n, Behind(b.role))[1..] == Stream(b.role.config, nonce, n + 1, Behind(b.role));
  }

  lemma ReceiverSideOk(a: Half, b: Half, nonce: int, a': Half)
    requires SideOk(a, nonce) && StepEnabled(a, b, Receive) && a' == StepSelf(a, b, Receive)
    requires b.outbox.frames[0].nonce == if Behind(a.role) == 5 then 0 else nonce
    ensures SideOk(a', nonce) && Behind(a'.role) == Behind(a.role) + 1
    ensures a'.outbox == a.outbox && a'.role.failed == a.role.failed && a'.role.config == a.role.config
    ensures a'.role.sender == a.role.sender && FailTail(a'.role) == FailTail(a.role) == []
  {
    OpIsExchange(a.role);
  }

  /** Passing an exchange the peer has passed keeps both on one line. */
  lemma AheadAfterReceive(a: Half, b: Half, a': Half, b': Half)
    requires Ahead(a, b) && Ahead(b, a) && Behind(a.role) < Behind(b.role)
    requires Behind(a'.role) == Behind(a.role) + 1 && a'.role.sender == a.role.sender && b'.role == b.role
    ensures Ahead(a', b') && Ahead(b', a')
  {
  }

  lemma ReceiveKeepsInv(a: Half, b: Half, nonce: int, a': Half, b': Half)
    requires Inv(a, b, nonce) && StepEnabled(a, b, Receive)
    requires a' == StepSelf(a, b, Receive) && b' == StepPeer(b, Receive)
    ensures Inv(a', b', nonce)
  {
    HeadIsExchange(a, b, nonce);
    ReceiverSideOk(a, b, nonce, a');
    AheadAfterReceive(a, b, a', b');
    assert b'.role == b.role && b'.outbox.frames == b.outbox.frames[1..];
    assert Stream(a.role.config, nonce, Behind(b.role), Behind(a'.role)) == [];
  }

  /** Steps that neither send nor read. */
  predicate Inward(step: Step) {
    step in {Local, WriteCompleted, WriteMarker, BeginRun, Finish, HangUp}
  }

  lemma InwardKeepsSide(a: Half, b: Half, nonce: int, step: Step, a': Half)
    requires SideOk(a, nonce) && StepEnabled(a, b, step) && Inward(step) && a' == StepSelf(a, b, step)
    ensures SideOk(a', nonce) && Behind(a'.role) == Behind(a.role) && (a.role.failed ==> a'.role.failed)
    ensures a'.role.sender == a.role.sender && a'.role.config == a.role.config
    ensures a'.outbox.frames == a.outbox.frames && FailTail(a'.role) == FailTail(a.role)
  {
    OpIsExchange(a.role);
  }

  lemma InwardKeepsInv(a: Half, b: Half, nonce: int, step: Step, a': Half)
    requires Inv(a, b, nonce) && StepEnabled(a, b, step) && Inward(step) && a' == StepSelf(a, b, step)
    ensures Inv(a', b, nonce)
  {
    InwardKeepsSide(a, b, nonce, step, a');
  }

  /** Failing, with or without a FAIL frame, keeps what the peer can still read. */
  lemma FailureKeepsInv(a: Half, b: Half, nonce: int, announce: bool, a': Half, b': Half)
    requires Inv(a, b, nonce) && !a.role.failed && MayAnnounce(a, announce) && a' == Failed(a, announce) && b'.role == b.role
    requires b'.outbox.closed == b.outbox.closed
    ensures Inv(a', b', nonce)
  {
  }

  lemma StepKeepsInv(a: Half, b: Half, nonce: int, step: Step, a': Half, b': Half)
    requires Inv(a, b, nonce) && StepEnabled(a, b, step) && a' == StepSelf(a, b, step) && b' == StepPeer(b, step)
    ensures Inv(a', b', nonce) && Inv(b', a', nonce)
  {
    match step
    case Send => SendKeepsInv(a, b, nonce, a');
    case Receive => ReceiveKeepsInv(a, b, nonce, a', b');
    case Reject(announce) => FailureKeepsInv(a, b, nonce, announce, a', b');
    case AbortOnInput(announce) => FailureKeepsInv(a, b, nonce, announce, a', b');
    case GiveUp(announce) => FailureKeepsInv(a, b, nonce, announce, a', b');
    case _ => InwardKeepsInv(a, b, nonce, step, a');
  }

  lemma ActionKeepsInv(s: State, nonce: int, act: Action, s': State)
    requires Inv(s.rx, s.tx, nonce) && Enabled(s, act) && s' == Next(s, act)
    ensures Inv(s'.rx, s'.tx, nonce)
    ensures s'.rx.role.config == s.rx.role.config && s'.tx.role.config == s.tx.role.config
  {
    if act.bySender {
      StepKeepsInv(s.tx, s.rx, nonce, act.step, s'.tx, s'.rx);
    } else {
      StepKeepsInv(s.rx, s.tx, nonce, act.step, s'.rx, s'.tx);
    }
  }

  lemma {:induction false} RunKeepsInv(s: State, nonce: int, run: seq<Action>)
    requires Inv(s.rx, s.tx, nonce) && IsRun(s, run)
    ensures Inv(Final(s, run).rx, Final(s, run).tx, nonce)
    decreases |run|
  {
    if run != [] {
      var s' := Next(s, run[0]);
      ActionKeepsInv(s, nonce, run[0], s');
      RunKeepsInv(s', nonce, run[1..]);
    }
  }

  lemma ReachableInv(s: State)
    requires Reachable(s)
    ensures s.rx.role.sender == false && s.tx.role.sender == true
    ensures Inv(s.rx, s.tx, s.rx.role.nonce) && Inv(s.tx, s.rx, s.rx.role.nonce)
  {
    var c, d, nonce, run :| IsRun(Init(c, d, nonce), run) && Final(Init(c, d, nonce), run) == s;
    InitiallyInv(c, d, nonce);
    RunKeepsInv(Init(c, d, nonce), nonce, run);
    RunKeepsSides(Init(c, d, nonce), run);
    assert Inv(s.rx, s.tx, nonce);
    NonceIsReceivers(s.rx, s.tx, nonce);
  }

  lemma InitiallyInv(c: Config, d: Config, nonce: int)
    ensures Inv(Init(c, d, nonce).rx, Init(c, d, nonce).tx, nonce)
  {
  }

  lemma NonceIsReceivers(a: Half, b: Half, nonce: int)
    requires Inv(a, b, nonce) && !a.role.sender
    ensures nonce == a.role.nonce && Inv(b, a, nonce)
  {
  }

  /** Who is who, and with which configuration, never changes. */
  lemma {:induction false} RunKeepsSides(s: State, run: seq<Action>)
    requires IsRun(s, run)
    ensures Final(s, run).rx.role.sender == s.rx.role.sender && Final(s, run).rx.role.config == s.rx.role.config
    ensures Final(s, run).tx.role.sender == s.tx.role.sender && Final(s, run).tx.role.config == s.tx.role.config
    decreases |run|
  {
    if run != [] {
      RunKeepsSides(Next(s, run[0]), run[1..]);
    }
  }

  // ----- the theorems

  /** Two roles with the same configuration: neither ever rejects a frame while its peer is
      healthy. */
  lemma HealthyFramesAccepted(s: State, bySender: bool, announce: bool)
    requires Reachable(s) && s.rx.role.config == s.tx.role.config
    requires if bySender then !s.rx.role.failed else !s.tx.role.failed
    ensures !Enabled(s, Action(bySender, Reject(announce)))
  {
    ReachableInv(s);
    OpIsExchange(s.rx.role);
    OpIsExchange(s.tx.role);
  }

  /** A frame of another run, another configuration or another phase is never accepted, and after
      the greeting none of another session. */
  lemma ForeignFramesRejected(r: Role, kind: Kind, f: Frame)
    ensures f.index != r.index || f.config != r.config || f.kind != kind ==> !Accepts(r, kind, f)
    ensures kind != Hello && f.nonce != r.nonce ==> !Accepts(r, kind, f)
    ensures f == Written(r, kind) ==> Accepts(r, kind, f)
  {
  }

  /** A role that has hung up does nothing any more, and a peer that waits for its children can
      notice it. */
  lemma HangUpIsNoticed(a: Half, b: Half, b': Half)
    requires StepEnabled(b, a, HangUp) && b' == StepSelf(b, a, HangUp)
    ensures forall step :: !StepEnabled(b', a, step)
    ensures !a.role.failed && OpAt(a.role.pc) == AwaitOp ==> StepEnabled(a, b', AbortOnInput(false))
  {
  }

  lemma AwaitIsQuiet(a: Half, b: Half, nonce: int)
    requires Inv(a, b, nonce) && !a.role.failed && OpAt(a.role.pc) == AwaitOp && !b.role.failed
    requires a.role.config == b.role.config
    ensures b.outbox == Channel([], false)
  {
    var n := Behind(a.role);
    assert n / 7 == a.role.index && n % 7 == Progress(a.role.pc);
    assert FromSender(n) == a.role.sender;
    assert Behind(b.role) <= n;
  }

  /** A role that has passed an exchange its peer starts knows that the peer passed it. */
  lemma PassedTogether(a: Half, b: Half, i: nat)
    requires Ahead(a, b) && i < Behind(a.role) && FromSender(i) != a.role.sender
    ensures i < Behind(b.role)
  {
  }

  lemma MarkedMeansBehind(r: Role, k: nat)
    requires PcOk(r) && RecordsOk(r) && 0 < k <= r.marked
    ensures 7 * k + 7 <= Behind(r)
  {
  }

  lemma BehindMeansRecorded(r: Role, k: nat)
    requires PcOk(r) && RecordsOk(r) && r.sender && 0 < k && 7 * k + 7 <= Behind(r)
    ensures k <= r.completed && k - 1 <= r.marked
  {
  }

  /** The receiver's `.complete` of run k: the sender wrote "completed" for k and
      `.complete` for every earlier run. */
  lemma ReceiverCompleteImpliesSender(s: State, k: nat)
    requires Reachable(s) && 0 < k <= s.rx.role.marked
    ensures k <= s.tx.role.completed && k - 1 <= s.tx.role.marked
  {
    ReachableInv(s);
    MarkedMeansBehind(s.rx.role, k);
    var ack := 7 * k + 6;
    assert ack / 7 == k && ack % 7 == 6;
    PassedTogether(s.rx, s.tx, ack);
    BehindMeansRecorded(s.tx.role, k);
  }

  /** The sender's `.complete` of run k: the receiver had announced the end of run k (so
      all its receivers were reaped) and finished every earlier run. */
  lemma SenderCompleteImpliesReceiver(s: State, k: nat)
    requires Reachable(s) && 0 < k <= s.tx.role.marked
    ensures 7 * k + 6 <= Behind(s.rx.role) && k - 1 <= s.rx.role.marked
  {
    ReachableInv(s);
    MarkedMeansBehind(s.tx.role, k);
    var finished := 7 * k + 5;
    assert finished / 7 == k && finished % 7 == 5;
    PassedTogether(s.tx, s.rx, finished);
  }

  /** The roles never drift more than two exchanges apart. */
  lemma LockStep(s: State)
    requires Reachable(s)
    ensures -2 <= Behind(s.rx.role) - Behind(s.tx.role) <= 2
  {
    ReachableInv(s);
    NoLongRuns(s.rx, s.tx);
    NoLongRuns(s.tx, s.rx);
  }

  lemma NeverThreeInARow(i: nat)
    requires i >= 5
    ensures !(FromSender(i) == FromSender(i + 1) == FromSender(i + 2))
  {
    assert i / 7 * 7 + i % 7 == i && (i + 1) / 7 * 7 + (i + 1) % 7 == i + 1 && (i + 2) / 7 * 7 + (i + 2) % 7 == i + 2;
  }

  lemma NoLongRuns(a: Half, b: Half)
    requires Ahead(a, b) && Behind(b.role) >= 5
    ensures Behind(a.role) <= Behind(b.role) + 2
  {
    NeverThreeInARow(Behind(b.role));
  }

  predicate AtGreeting(s: State) {
    s.rx.role.pc == RxHelloIn && s.tx.role.pc in {TxHelloOut, TxHelloIn} && s.rx.role.index == s.tx.role.index == 0
  }

  lemma StepStaysAtGreeting(s: State, nonce: int, act: Action, s': State)
    requires Inv(s.rx, s.tx, nonce) && s.rx.role.config != s.tx.role.config && AtGreeting(s)
    requires Enabled(s, act) && s' == Next(s, act)
    ensures AtGreeting(s')
  {
  }

  lemma {:induction false} StuckAtGreeting(s: State, nonce: int, run: seq<Action>)
    requires Inv(s.rx, s.tx, nonce) && IsRun(s, run) && s.rx.role.config != s.tx.role.config && AtGreeting(s)
    ensures AtGreeting(Final(s, run))
    decreases |run|
  {
    if run != [] {
      var s' := Next(s, run[0]);
      ActionKeepsInv(s, nonce, run[0], s');
      StepStaysAtGreeting(s, nonce, run[0], s');
      StuckAtGreeting(s', nonce, run[1..]);
    }
  }

  /** Roles with different configurations never start a run. */
  lemma MismatchNeverStarts(s: State)
    requires Reachable(s) && s.rx.role.config != s.tx.role.config
    ensures s.rx.role.index == 0 && s.tx.role.index == 0
  {
    var c, d, nonce, run :| IsRun(Init(c, d, nonce), run) && Final(Init(c, d, nonce), run) == s;
    RunKeepsSides(Init(c, d, nonce), run);
    StuckAtGreeting(Init(c, d, nonce), nonce, run);
  }

  /** While a role waits for its children its inbound channel is empty and open unless the
      peer failed, so polling that channel never aborts a healthy run. */
  lemma PollingNeverAbortsHealthyRun(s: State, bySender: bool, announce: bool)
    requires Reachable(s)
    requires if bySender then !s.rx.role.failed else !s.tx.role.failed
    ensures !Enabled(s, Action(bySender, AbortOnInput(announce)))
  {
    ReachableInv(s);
    if s.rx.role.config != s.tx.role.config {
      MismatchNeverStarts(s);
    } else if bySender {
      if !s.tx.role.failed && OpAt(s.tx.role.pc) == AwaitOp {
        AwaitIsQuiet(s.tx, s.rx, s.rx.role.nonce);
      }
    } else {
      if !s.rx.role.failed && OpAt(s.rx.role.pc) == AwaitOp {
        AwaitIsQuiet(s.rx, s.tx, s.rx.role.nonce);
      }
    }
  }

  /** A step other than giving up. */
  predicate Useful(step: Step) {
    step in {Send, Receive, Local, WriteCompleted, WriteMarker, BeginRun, Finish}
  }

  lemma HalfCanMove(a: Half, b: Half, nonce: int) returns (step: Step)
    requires Inv(a, b, nonce) && !a.role.failed && !b.role.failed && a.role.config == b.role.config
    requires !a.outbox.closed && (OpAt(a.role.pc).RecvOp? ==> Behind(a.role) < Behind(b.role))
    ensures Useful(step) && StepEnabled(a, b, step)
  {
    OpIsExchange(a.role);
    match OpAt(a.role.pc)
    case SendOp(_) => step := Send;
    case RecvOp(_) => step := Receive;
    case LocalOp => step := Local;
    case AwaitOp => step := Local;
    case RecordOp => step := WriteCompleted;
    case MarkOp => step := WriteMarker;
    case LoopOp => step := if a.role.index < a.role.config.runs then BeginRun else Finish;
  }

  /** The protocol has no deadlock: of two healthy roles with one configuration one can
      always go on until both have finished their last run. */
  lemma HealthyNeverStuck(s: State, nonce: int) returns (act: Action)
    requires Inv(s.rx, s.tx, nonce) && s.rx.role.config == s.tx.role.config && !s.rx.role.failed && !s.tx.role.failed
    requires !(s.rx.outbox.closed && s.tx.outbox.closed)
    ensures Useful(act.step) && Enabled(s, act)
  {
    OpIsExchange(s.rx.role);
    OpIsExchange(s.tx.role);
    if !s.rx.outbox.closed && (OpAt(s.rx.role.pc).RecvOp? ==> Behind(s.rx.role) < Behind(s.tx.role)) {
      var step := HalfCanMove(s.rx, s.tx, nonce);
      act := Action(false, step);
    } else {
      var step := HalfCanMove(s.tx, s.rx, nonce);
      act := Action(true, step);
    }
  }

  /** Steps of a role up to the head of its run loop. */
  function StepsLeft(pc: Pc): nat {
    match pc
    case Idle => 0
    case RxHelloIn => 2
    case RxHelloOut => 1
    case RxPrepare => 15
    case RxSendReady => 14
    case RxRecvReady => 13
    case RxSendStart => 12
    case RxRecvStarted => 11
    case RxRecvStop => 10
    case RxRequestStops => 9
    case RxAwait => 8
    case RxRelease => 7
    case RxReap => 6
    case RxSendDone => 5
    case RxRecvAck => 4
    case RxStopPipeline => 3
    case RxRecord => 2
    case RxMark => 1
    case TxHelloOut => 2
    case TxHelloIn => 1
    case TxPrepare => 14
    case TxRecvReady => 13
    case TxSpawn => 12
    case TxSendReady => 11
    case TxRecvStart => 10
    case TxPublishStart => 9
    case TxSendStarted => 8
    case TxAwait => 7
    case TxSendStop => 6
    case TxRecvDone => 5
    case TxFlush => 4
    case TxRecord => 3
    case TxSendAck => 2
    case TxMark => 1
  }

  /** What a role still has to do before it has hung up after its last run. */
  function Work(a: Half): nat
    requires a.role.index <= a.role.config.runs
  {
    16 * (a.role.config.runs - a.role.index) + StepsLeft(a.role.pc) + if a.outbox.closed then 0 else 1
  }

  lemma UsefulStepAdvances(a: Half, b: Half, step: Step, a': Half)
    requires StepEnabled(a, b, step) && Useful(step) && a' == StepSelf(a, b, step)
    ensures step == BeginRun ==> a'.outbox == a.outbox && a'.role == a.role.(pc := FirstPc(a.role.sender), index := a.role.index + 1)
    ensures step == Finish ==> a'.role == a.role && !a.outbox.closed && a'.outbox.closed
    ensures step !in {BeginRun, Finish} ==>
              a.role.pc != Idle && a'.role.pc == After(a.role.pc) && a'.role.index == a.role.index && a'.outbox.closed == a.outbox.closed
    ensures a'.role.failed == a.role.failed && a'.role.config == a.role.config
    ensures step == BeginRun ==> a.role.pc == Idle && a.role.index < a.role.config.runs
  {
  }

  lemma UsefulStepWorks(a: Half, b: Half, step: Step, a': Half, b': Half)
    requires StepEnabled(a, b, step) && Useful(step) && a' == StepSelf(a, b, step) && b' == StepPeer(b, step)
    requires a.role.index <= a.role.config.runs && b.role.index <= b.role.config.runs
    ensures a'.role.index <= a'.role.config.runs && Work(a') < Work(a) && b'.role == b.role && Work(b') == Work(b)
    ensures a'.role.failed == a.role.failed && a'.role.config == a.role.config
  {
    UsefulStepAdvances(a, b, step, a');
    assert a.role.pc != Idle ==> StepsLeft(After(a.role.pc)) < StepsLeft(a.role.pc);
  }

  /** From every state in which both roles are healthy they can finish all their runs, every
      one completed and marked on both sides, without anyone giving up. */
  lemma HealthyCanFinish(s: State) returns (run: seq<Action>)
    requires Reachable(s) && s.rx.role.config == s.tx.role.config && !s.rx.role.failed && !s.tx.role.failed
    ensures IsRun(s, run) && forall act | act in run :: Useful(act.step)
    ensures var t := Final(s, run);
            && t.rx.outbox.closed && t.tx.outbox.closed && !t.rx.role.failed && !t.tx.role.failed
            && t.rx.role.completed == t.rx.role.marked == s.rx.role.config.runs
            && t.tx.role.completed == t.tx.role.marked == s.tx.role.config.runs
  {
    ReachableInv(s);
    run := FinishFrom(s, s.rx.role.nonce);
  }

  lemma {:induction false} FinishFrom(s: State, nonce: int) returns (run: seq<Action>)
    requires Inv(s.rx, s.tx, nonce) && s.rx.role.config == s.tx.role.config && !s.rx.role.failed && !s.tx.role.failed
    ensures IsRun(s, run) && forall act | act in run :: Useful(act.step)
    ensures var t := Final(s, run);
            && t.rx.outbox.closed && t.tx.outbox.closed && !t.rx.role.failed && !t.tx.role.failed
            && t.rx.role.completed == t.rx.role.marked == s.rx.role.config.runs
            && t.tx.role.completed == t.tx.role.marked == s.tx.role.config.runs
    decreases Work(s.rx) + Work(s.tx)
  {
    if s.rx.outbox.closed && s.tx.outbox.closed {
      run := [];
    } else {
      var act := HealthyNeverStuck(s, nonce);
      var s' := Next(s, act);
      ActionKeepsInv(s, nonce, act, s');
      if act.bySender {
        UsefulStepWorks(s.tx, s.rx, act.step, s'.tx, s'.rx);
      } else {
        UsefulStepWorks(s.rx, s.tx, act.step, s'.rx, s'.tx);
      }
      var rest := FinishFrom(s', nonce);
      run := [act] + rest;
      assert run[1..] == rest;
    }
  }
}
