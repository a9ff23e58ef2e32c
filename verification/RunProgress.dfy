/** The run barrier opens: two healthy roles whose children do not fail complete all their
    runs, and in each of them every receiver drains, saves and is reaped.  And where the
    receiving side fails, its cleanup comes to an end. */
module RunProgress {
  import opened Wrappers
  import opened RunProtocol
  import opened RunBarrier

  // ----- runs without failure

  /** Nobody gives up and no child fails. */
  ghost predicate Healthy(s: System, a: Act) {
    match a
    case Control(act) => Useful(act.step)
    case CleanTerm => false
    case CleanUsr1 => false
    case CleanLoader => false
    case ReceiverDo(i, step) => i < |s.receivers| && CanStep(s.receivers[i], step)
    case SenderDo(i, step) => i < |s.senders| && step != ReportUnsent && (step == ExitSender ==> s.senders[i].byte == OkByte)
    case _ => true
  }

  ghost predicate HealthyRun(s: System, run: seq<Act>)
    requires IsRunOf(s, run)
    decreases |run|
  {
    run == [] || (Healthy(s, run[0]) && HealthyRun(ActNext(s, run[0]), run[1..]))
  }

  /** A receiver that has not failed: whatever is behind its report succeeded, and it is gone
      only after it saved. */
  predicate FineReceiver(c: Receiver) {
    && c.byte != BadByte
    && (c.phase in {Reported, Saved, Gone} ==> c.byte == OkByte)
    && (c.phase == Gone ==> c.saved)
  }

  predicate FineSender(c: Sender, count: nat) {
    c.byte != BadByte && c.attempted <= count && (c.gone ==> c.byte == OkByte)
  }

  ghost predicate FineChildren(s: System) {
    && |s.receivers| <= |s.counts| && |s.senders| <= |s.counts|
    && (forall i | 0 <= i < |s.receivers| :: FineReceiver(s.receivers[i]))
    && (forall i | 0 <= i < |s.senders| :: FineSender(s.senders[i], s.counts[i]))
  }

  predicate FineRoles(s: State) {
    && !s.rx.role.failed && !s.tx.role.failed && s.rx.role.config == s.tx.role.config
    && s.rx.role.index <= s.rx.role.config.runs && s.tx.role.index <= s.tx.role.config.runs
  }

  ghost predicate Fine(s: System) {
    InvOf(s) && FineRoles(s.ctl) && FineChildren(s)
  }

  lemma UsefulKeepsRoles(s: State, act: Action, s': State)
    requires FineRoles(s) && Enabled(s, act) && Useful(act.step) && s' == Next(s, act)
    ensures FineRoles(s') && Work(s'.rx) + Work(s'.tx) < Work(s.rx) + Work(s.tx)
  {
    if act.bySender {
      UsefulStepWorks(s.tx, s.rx, act.step, s'.tx, s'.rx);
    } else {
      UsefulStepWorks(s.rx, s.tx, act.step, s'.rx, s'.tx);
    }
  }

  lemma RoleStepUseful(s: System, a: Act)
    requires ActEnabled(s, a) && RoleStep(a) != []
    ensures Healthy(s, a) ==> Useful(RoleStep(a)[0].step)
  {
  }

  lemma RoleActKeepsChildren(s: System, a: Act, s': System)
    requires FineChildren(s) && ActEnabled(s, a) && RoleStep(a) != [] && s' == ActNext(s, a)
    ensures FineChildren(s')
  {
    match a
    case Control(_) =>
    case RxBegins =>
    case RxStops =>
    case RxReleases =>
    case TxBegins =>
    case TxSpawns =>
    case _ =>
  }

  lemma ReceiverActKeepsChildren(s: System, a: Act, s': System)
    requires InvOf(s) && FineChildren(s) && ActEnabled(s, a) && Healthy(s, a) && s' == ActNext(s, a)
    requires a == SpawnReceiver || a.Hear? || a.Reap? || a.ReceiverDo?
    ensures FineChildren(s')
  {
    assert s'.senders == s.senders && s'.counts == s.counts;
    if a.ReceiverDo? {
      ReceiverStaysFine(s.receivers[a.i], a.r);
    }
  }

  lemma SenderActKeepsChildren(s: System, a: Act, s': System)
    requires FineChildren(s) && ActEnabled(s, a) && Healthy(s, a) && (a.HearSender? || a.SenderDo?) && s' == ActNext(s, a)
    ensures FineChildren(s')
  {
    assert s'.receivers == s.receivers && s'.counts == s.counts;
    if a.SenderDo? {
      SenderStaysFine(s.senders[a.i], s.counts[a.i], a.t);
    }
  }

  lemma ChildActKeepsChildren(s: System, a: Act, s': System)
    requires InvOf(s) && FineChildren(s) && ActEnabled(s, a) && Healthy(s, a) && RoleStep(a) == [] && s' == ActNext(s, a)
    ensures FineChildren(s')
  {
    if a.HearSender? || a.SenderDo? {
      SenderActKeepsChildren(s, a, s');
    } else {
      ReceiverActKeepsChildren(s, a, s');
    }
  }

  lemma ReceiverStaysFine(c: Receiver, step: ReceiverStep)
    requires ReceiverOk(c) && FineReceiver(c) && CanStep(c, step)
    ensures FineReceiver(ReceiverNext(c, step))
  {
  }

  lemma SenderStaysFine(c: Sender, count: nat, step: SenderStep)
    requires FineSender(c, count) && SenderEnabled(c, count, step) && step != ReportUnsent && (step == ExitSender ==> c.byte == OkByte)
    ensures FineSender(SenderNext(c, step), count)
  {
  }

  lemma HealthyKeepsFine(s: System, a: Act, s': System)
    requires Fine(s) && ActEnabled(s, a) && Healthy(s, a) && s' == ActNext(s, a)
    ensures Fine(s')
  {
    StepKeepsInvOf(s, a, s');
    RoleStepTaken(s, a, s');
    if RoleStep(a) == [] {
      ChildActKeepsChildren(s, a, s');
    } else {
      RoleStepUseful(s, a);
      UsefulKeepsRoles(s.ctl, RoleStep(a)[0], s'.ctl);
      RoleActKeepsChildren(s, a, s');
    }
  }

  lemma {:induction false} HealthyRunKeepsFine(s: System, run: seq<Act>)
    requires Fine(s) && IsRunOf(s, run) && HealthyRun(s, run)
    ensures Fine(FinalOf(s, run))
    decreases |run|
  {
    if run != [] {
      HealthyKeepsFine(s, run[0], ActNext(s, run[0]));
      HealthyRunKeepsFine(ActNext(s, run[0]), run[1..]);
    }
  }

  /** In every run without failure, once the receiving supervisor has reaped its receivers,
      every one of them has drained and written its records. */
  lemma AllSavedWhenReaped(c: Config, nonce: int, counts: seq<nat>, run: seq<Act>)
    requires IsRunOf(InitOf(c, c, nonce, counts), run) && HealthyRun(InitOf(c, c, nonce, counts), run)
    ensures var s := FinalOf(InitOf(c, c, nonce, counts), run);
            PastReap(s.ctl.rx.role.pc) ==>
              forall i | 0 <= i < |s.receivers| :: s.receivers[i].saved && s.receivers[i].drained && s.receivers[i].reaped
  {
    InitiallyInvOf(c, c, nonce, counts);
    HealthyRunKeepsFine(InitOf(c, c, nonce, counts), run);
    var s := FinalOf(InitOf(c, c, nonce, counts), run);
    forall i | PastReap(s.ctl.rx.role.pc) && 0 <= i < |s.receivers|
      ensures s.receivers[i].saved && s.receivers[i].drained && s.receivers[i].reaped
    {
      assert ReceiverOk(s.receivers[i]) && FineReceiver(s.receivers[i]);
    }
  }

  // ----- how much the children have left to do

  function ReceiverLeft(c: Receiver): nat {
    StepsToGo(c.phase) + One(!c.heard) + One(!c.reaped)
  }

  function SenderLeft(c: Sender, count: nat): nat
    requires c.attempted <= count
  {
    count - c.attempted + One(c.byte == NoByte) + One(!c.heard)
  }

  function ReceiversLeft(cs: seq<Receiver>): nat {
    if cs == [] then 0 else ReceiversLeft(cs[..|cs| - 1]) + ReceiverLeft(cs[|cs| - 1])
  }

  function SendersLeft(cs: seq<Sender>, counts: seq<nat>): nat
    requires |cs| <= |counts| && forall i | 0 <= i < |cs| :: cs[i].attempted <= counts[i]
  {
    if cs == [] then 0 else SendersLeft(cs[..|cs| - 1], counts) + SenderLeft(cs[|cs| - 1], counts[|cs| - 1])
  }

  lemma {:induction false} ReceiversLeftMoves(cs: seq<Receiver>, i: nat, c: Receiver)
    requires i < |cs|
    ensures ReceiversLeft(cs[i := c]) == ReceiversLeft(cs) - ReceiverLeft(cs[i]) + ReceiverLeft(c)
    decreases |cs|
  {
    var init := cs[..|cs| - 1];
    if i < |init| {
      ReceiversLeftMoves(init, i, c);
      assert cs[i := c][..|cs| - 1] == init[i := c];
    } else {
      assert cs[i := c][..|cs| - 1] == init;
    }
  }

  lemma {:induction false} SendersLeftMoves(cs: seq<Sender>, counts: seq<nat>, i: nat, c: Sender)
    requires i < |cs| <= |counts| && forall j | 0 <= j < |cs| :: cs[j].attempted <= counts[j]
    requires c.attempted <= counts[i]
    ensures SendersLeft(cs[i := c], counts) == SendersLeft(cs, counts) - SenderLeft(cs[i], counts[i]) + SenderLeft(c, counts[i])
    decreases |cs|
  {
    var init := cs[..|cs| - 1];
    if i < |init| {
      SendersLeftMoves(init, counts, i, c);
      assert cs[i := c][..|cs| - 1] == init[i := c];
    } else {
      assert cs[i := c][..|cs| - 1] == init;
    }
  }

  /** A receiver not yet spawned counts for more than one that is. */
  ghost function ChildLeft(s: System): int
    requires FineChildren(s)
  {
    7 * (|s.counts| - |s.receivers|) + ReceiversLeft(s.receivers) + SendersLeft(s.senders, s.counts)
  }

  ghost function RolesLeft(s: System): nat
    requires FineRoles(s.ctl)
  {
    Work(s.ctl.rx) + Work(s.ctl.tx)
  }

  // ----- there is always a next step

  /** A step of the roles, or one that brings a child closer to its end. */
  ghost predicate Closer(s: System, a: Act) {
    && ActEnabled(s, a) && Healthy(s, a)
    && (RoleStep(a) != [] || (FineChildren(s) && FineChildren(ActNext(s, a)) && ChildLeft(ActNext(s, a)) < ChildLeft(s)))
  }

  lemma SpawnIsCloser(s: System)
    requires Fine(s) && ActEnabled(s, SpawnReceiver)
    ensures Closer(s, SpawnReceiver)
  {
    var cs := s.receivers + [NewReceiver()];
    assert cs[..|cs| - 1] == s.receivers;
    ChildActKeepsChildren(s, SpawnReceiver, ActNext(s, SpawnReceiver));
  }

  lemma ReceiverActIsCloser(s: System, a: Act)
    requires Fine(s) && ActEnabled(s, a) && Healthy(s, a) && (a.Hear? || a.Reap? || a.ReceiverDo?)
    requires var s' := ActNext(s, a); ReceiverLeft(s'.receivers[a.i]) < ReceiverLeft(s.receivers[a.i])
    ensures Closer(s, a)
  {
    var s' := ActNext(s, a);
    ChildActKeepsChildren(s, a, s');
    ReceiversLeftMoves(s.receivers, a.i, s'.receivers[a.i]);
    assert s'.senders == s.senders && s'.counts == s.counts;
  }

  lemma SenderActIsCloser(s: System, a: Act)
    requires Fine(s) && ActEnabled(s, a) && Healthy(s, a) && (a.HearSender? || a.SenderDo?)
    requires var s' := ActNext(s, a);
             s'.senders[a.i].attempted <= s.counts[a.i] && SenderLeft(s'.senders[a.i], s.counts[a.i]) < SenderLeft(s.senders[a.i], s.counts[a.i])
    ensures Closer(s, a)
  {
    var s' := ActNext(s, a);
    ChildActKeepsChildren(s, a, s');
    SendersLeftMoves(s.senders, s.counts, a.i, s'.senders[a.i]);
    assert s'.receivers == s.receivers && s'.counts == s.counts;
  }

  /** A receiver that can go on takes a step. */
  lemma ReceiverGoesOn(s: System, i: nat) returns (a: Act)
    requires Fine(s) && i < |s.receivers| && s.receivers[i].phase != Gone
    requires s.receivers[i].term && (s.receivers[i].phase == Reported ==> s.receivers[i].usr1)
    ensures Closer(s, a)
  {
    var c := s.receivers[i];
    BlockedExactly(c);
    var step :| CanStep(c, step);
    a := ReceiverDo(i, step);
    assert FineReceiver(c) && ReceiverOk(c);
    assert StepsToGo(ReceiverNext(c, step).phase) < StepsToGo(c.phase);
    ReceiverActIsCloser(s, a);
  }

  lemma AwaitGoesOn(s: System) returns (a: Act)
    requires Fine(s) && s.ctl.rx.role.pc == RxAwait
    ensures Closer(s, a)
  {
    if AllHeard(s.receivers) {
      a := RxAllHeard;
    } else {
      var i :| 0 <= i < |s.receivers| && !s.receivers[i].heard;
      assert ReceiverOk(s.receivers[i]) && FineReceiver(s.receivers[i]);
      if s.receivers[i].byte == OkByte {
        a := Hear(i);
        ReceiverActIsCloser(s, a);
      } else {
        a := ReceiverGoesOn(s, i);
      }
    }
  }

  lemma ReapGoesOn(s: System) returns (a: Act)
    requires Fine(s) && s.ctl.rx.role.pc == RxReap
    ensures Closer(s, a)
  {
    if AllReaped(s.receivers) {
      a := RxReaped;
    } else {
      var i :| 0 <= i < |s.receivers| && !s.receivers[i].reaped;
      if s.receivers[i].phase == Gone {
        a := Reap(i);
        ReceiverActIsCloser(s, a);
      } else {
        a := ReceiverGoesOn(s, i);
      }
    }
  }

  lemma SendersGoOn(s: System) returns (a: Act)
    requires Fine(s) && s.ctl.tx.role.pc == TxAwait
    ensures Closer(s, a)
  {
    if AllSendersHeard(s.senders) {
      a := TxAllHeard;
    } else {
      var i :| 0 <= i < |s.senders| && !s.senders[i].heard;
      var c := s.senders[i];
      assert FineSender(c, s.counts[i]) && SenderOk(c, s.counts[i]);
      if c.byte == OkByte {
        a := HearSender(i);
      } else {
        a := SenderDo(i, if c.attempted < s.counts[i] then Attempt else ReportSent);
      }
      SenderActIsCloser(s, a);
    }
  }

  /** What a local step of the receiving supervisor waits for can be brought about. */
  lemma RxGoesOn(s: System) returns (a: Act)
    requires Fine(s) && Enabled(s.ctl, RX_LOCAL)
    ensures Closer(s, a)
  {
    match s.ctl.rx.role.pc
    case RxPrepare =>
      if |s.receivers| < |s.counts| {
        a := SpawnReceiver;
        SpawnIsCloser(s);
      } else {
        a := RxPrepared;
      }
    case RxRequestStops => a := RxStops;
    case RxAwait => a := AwaitGoesOn(s);
    case RxRelease => a := RxReleases;
    case RxReap => a := ReapGoesOn(s);
    case RxStopPipeline => a := RxStopsLoader;
    case _ => a := Control(RX_LOCAL);
  }

  lemma TxGoesOn(s: System) returns (a: Act)
    requires Fine(s) && Enabled(s.ctl, TX_LOCAL)
    ensures Closer(s, a)
  {
    if s.ctl.tx.role.pc == TxAwait {
      a := SendersGoOn(s);
    } else {
      a := TxLocalAct(s);
    }
  }

  lemma TxLocalAct(s: System) returns (a: Act)
    requires Enabled(s.ctl, TX_LOCAL) && s.ctl.tx.role.pc != TxAwait
    ensures Closer(s, a)
  {
    match s.ctl.tx.role.pc
    case TxSpawn => a := TxSpawns;
    case TxPublishStart => a := TxPublishes;
    case _ => a := Control(TX_LOCAL);
  }

  lemma AlwaysCloser(s: System) returns (a: Act)
    requires Fine(s) && !(s.ctl.rx.outbox.closed && s.ctl.tx.outbox.closed)
    ensures Closer(s, a)
  {
    var act := HealthyNeverStuck(s.ctl, s.ctl.rx.role.nonce);
    if act.step == Local {
      if act.bySender {
        a := TxGoesOn(s);
      } else {
        a := RxGoesOn(s);
      }
    } else if act.step == BeginRun {
      a := if act.bySender then TxBegins else RxBegins;
    } else {
      a := Control(act);
    }
  }

  // ----- the theorem

  /** Both roles have finished all their runs, and in the last one every receiver drained, saved
      and was reaped. */
  ghost predicate Completed(s: System) {
    && s.ctl.rx.outbox.closed && s.ctl.tx.outbox.closed
    && s.ctl.rx.role.marked == s.ctl.tx.role.marked == s.ctl.rx.role.config.runs
    && (s.ctl.rx.role.config.runs > 0 ==> s.loaderTold)
    && forall i | 0 <= i < |s.receivers| :: s.receivers[i].saved && s.receivers[i].drained && s.receivers[i].reaped
  }

  lemma ClosedIsCompleted(s: System)
    requires Fine(s) && s.ctl.rx.outbox.closed && s.ctl.tx.outbox.closed
    ensures Completed(s)
  {
    forall i | 0 <= i < |s.receivers|
      ensures s.receivers[i].saved && s.receivers[i].drained && s.receivers[i].reaped
    {
      assert ReceiverOk(s.receivers[i]) && FineReceiver(s.receivers[i]);
    }
  }

  lemma CloserFalls(s: System, a: Act, s': System)
    requires Fine(s) && Closer(s, a) && s' == ActNext(s, a)
    ensures Fine(s') && (RolesLeft(s') < RolesLeft(s) || (RolesLeft(s') == RolesLeft(s) && 0 <= ChildLeft(s') < ChildLeft(s)))
  {
    HealthyKeepsFine(s, a, s');
    RoleStepTaken(s, a, s');
    if RoleStep(a) != [] {
      RoleStepUseful(s, a);
      UsefulKeepsRoles(s.ctl, RoleStep(a)[0], s'.ctl);
    }
  }

  lemma {:induction false} CompleteFrom(s: System) returns (run: seq<Act>)
    requires Fine(s)
    ensures IsRunOf(s, run) && HealthyRun(s, run) && Completed(FinalOf(s, run))
    decreases RolesLeft(s), ChildLeft(s)
  {
    if s.ctl.rx.outbox.closed && s.ctl.tx.outbox.closed {
      run := [];
      ClosedIsCompleted(s);
    } else {
      var a := AlwaysCloser(s);
      CloserFalls(s, a, ActNext(s, a));
      var rest := CompleteFrom(ActNext(s, a));
      run := [a] + rest;
      assert run[1..] == rest;
    }
  }

  /** From every state of a run without failure the two machines can go on, without failure, to
      the end of their last run: no barrier stays shut. */
  lemma BarrierAlwaysOpens(c: Config, nonce: int, counts: seq<nat>, before: seq<Act>) returns (run: seq<Act>)
    requires IsRunOf(InitOf(c, c, nonce, counts), before) && HealthyRun(InitOf(c, c, nonce, counts), before)
    ensures var s := FinalOf(InitOf(c, c, nonce, counts), before);
            IsRunOf(s, run) && HealthyRun(s, run) && Completed(FinalOf(s, run))
  {
    InitiallyInvOf(c, c, nonce, counts);
    HealthyRunKeepsFine(InitOf(c, c, nonce, counts), before);
    run := CompleteFrom(FinalOf(InitOf(c, c, nonce, counts), before));
  }

  // ----- the failing path

  /** What cleanup_children does, and receivers in which nothing fails. */
  ghost predicate OfCleanup(s: System, a: Act) {
    match a
    case CleanTerm => true
    case CleanUsr1 => true
    case CleanLoader => true
    case Reap(_) => true
    case ReceiverDo(i, step) => i < |s.receivers| && CanStep(s.receivers[i], step)
    case _ => false
  }

  ghost predicate CleanupRun(s: System, run: seq<Act>)
    requires IsRunOf(s, run)
    decreases |run|
  {
    run == [] || (OfCleanup(s, run[0]) && CleanupRun(ActNext(s, run[0]), run[1..]))
  }

  /** One more receiver step, or one more reaped. */
  lemma CleanupGoesOn(s: System) returns (a: Act)
    requires InvOf(s) && s.ctl.rx.role.failed && s.cleanup == 2 && !AllReaped(s.receivers)
    ensures ActEnabled(s, a) && OfCleanup(s, a)
    ensures var s' := ActNext(s, a);
            s'.ctl == s.ctl && s'.cleanup == 2 && ReceiversLeft(s'.receivers) < ReceiversLeft(s.receivers)
  {
    var i :| 0 <= i < |s.receivers| && !s.receivers[i].reaped;
    var c := s.receivers[i];
    if c.phase == Gone {
      a := Reap(i);
      ReceiversLeftMoves(s.receivers, i, c.(reaped := true));
    } else {
      BlockedExactly(c);
      var step :| CanStep(c, step);
      a := ReceiverDo(i, step);
      assert StepsToGo(ReceiverNext(c, step).phase) < StepsToGo(c.phase);
      ReceiversLeftMoves(s.receivers, i, ReceiverNext(c, step));
    }
  }

  lemma {:induction false} CleanFrom(s: System) returns (run: seq<Act>)
    requires InvOf(s) && s.ctl.rx.role.failed
    ensures IsRunOf(s, run) && CleanupRun(s, run)
    ensures FinalOf(s, run).loaderTold && FinalOf(s, run).cleanup == 3 && AllReaped(FinalOf(s, run).receivers)
    decreases 3 - s.cleanup, ReceiversLeft(s.receivers)
  {
    if s.cleanup == 3 {
      run := [];
    } else {
      var a;
      if s.cleanup == 2 && !AllReaped(s.receivers) {
        a := CleanupGoesOn(s);
      } else {
        a := if s.cleanup == 0 then CleanTerm else if s.cleanup == 1 then CleanUsr1 else CleanLoader;
      }
      StepKeepsInvOf(s, a, ActNext(s, a));
      var rest := CleanFrom(ActNext(s, a));
      run := [a] + rest;
      assert run[1..] == rest;
    }
  }

  /** Wherever the receiving side fails, its cleanup can finish without killing anybody: every
      receiver still there goes to its end by its own steps and is reaped, and then the loader
      is told. */
  lemma CleanupAlwaysFinishes(s: System) returns (run: seq<Act>)
    requires ReachableSystem(s) && s.ctl.rx.role.failed
    ensures IsRunOf(s, run) && CleanupRun(s, run)
    ensures FinalOf(s, run).loaderTold && FinalOf(s, run).cleanup == 3 && AllReaped(FinalOf(s, run).receivers)
  {
    ReachableInvOf(s);
    run := CleanFrom(s);
  }
}
