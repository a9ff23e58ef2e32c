/** The child table of a supervisor: polling, stopping and waiting for children, and the
    order in which cleanup_children stops them (experiment/ace-run.c). */
module RunCleanup {

  const SIGTERM := 15

  datatype ChildKind = LoaderChild | BarrierChild | OtherChild

  /** `external` marks the monitor and the network load, which may end by their signal;
      `persistent` a child that must not end before it is told to. */
  datatype Child = Child(kind: ChildKind, external: bool, persistent: bool)

  datatype Status = Exited(code: int) | Signaled(signal: int)

  datatype Event = Term(i: nat) | Usr1(i: nat) | Kill(i: nat) | Reaped(i: nat)

  /** What one turn of a waiting loop finds: whether the supervisor itself was told to stop,
      and which children waitpid reports with which status. */
  datatype Poll = Poll(told: bool, dead: map<nat, Status>)

  datatype WaitResult = Fine | BadStatus | TimedOut | Interrupted | SomeChildFailed

  /** The loader is signalled only after all other children that were alive at the start
      have been reaped. */
  ghost predicate LoaderLast(children: seq<Child>, log: seq<Event>, doneBefore: seq<bool>)
    requires |doneBefore| == |children|
  {
    forall p, i | 0 <= p < |log| && log[p].Term? && log[p].i < |children| && children[log[p].i].kind == LoaderChild
                  && 0 <= i < |children| && children[i].kind != LoaderChild && !doneBefore[i] ::
      Reaped(i) in log[..p]
  }

  lemma LogGrows(children: seq<Child>, log: seq<Event>, e: Event, doneBefore: seq<bool>)
    requires |doneBefore| == |children| && LoaderLast(children, log, doneBefore)
    requires e.Term? && e.i < |children| && children[e.i].kind == LoaderChild ==>
      forall i | 0 <= i < |children| && children[i].kind != LoaderChild && !doneBefore[i] :: Reaped(i) in log
    ensures LoaderLast(children, log + [e], doneBefore)
  {
    var longer := log + [e];
    forall p, i | 0 <= p < |longer| && longer[p].Term? && longer[p].i < |children| && children[longer[p].i].kind == LoaderChild
                  && 0 <= i < |children| && children[i].kind != LoaderChild && !doneBefore[i]
      ensures Reaped(i) in longer[..p]
    {
      assert longer[..p] == log[..p];
      assert p == |log| ==> longer[..p] == log;
    }
  }

  /** A child that ended well: with 0, or, for the two external tools, by the stop it got. */
  predicate EndedWell(c: Child, status: Status, stopping: bool) {
    || status == Exited(0)
    || (c.external && stopping && (status == Exited(130) || status == Signaled(SIGTERM)))
  }

  /** What reap() complains about. */
  predicate Complains(c: Child, done: bool, stopping: bool, status: Status) {
    done && !stopping && (c.persistent || status != Exited(0))
  }

  /** Exit status 0 is always well; anything else only for an external tool that was told to stop
      and says 130 or died of its TERM. */
  lemma EndedWellMeans(c: Child, code: int, signal: int, stopping: bool)
    ensures EndedWell(c, Exited(0), stopping)
    ensures code != 0 && (!c.external || !stopping || code != 130) ==> !EndedWell(c, Exited(code), stopping)
    ensures c.external && stopping ==> EndedWell(c, Exited(130), stopping) && EndedWell(c, Signaled(15), stopping)
    ensures !c.external || !stopping || signal != 15 ==> !EndedWell(c, Signaled(signal), stopping)
  {
  }

  /** Untold, a persistent child must not end at all and any other only with 0; nobody complains
      about a child that was told. */
  lemma ComplainsMeans(c: Child, code: int, signal: int)
    ensures Complains(c, true, false, Exited(code)) <==> c.persistent || code != 0
    ensures Complains(c, true, false, Signaled(signal))
    ensures forall status :: !Complains(c, true, true, status) && !Complains(c, false, false, status)
  {
  }

  /** None of the first n polls reports child i. */
  predicate Unreported(polls: seq<Poll>, n: nat, i: nat)
    requires n <= |polls|
  {
    forall k | 0 <= k < n :: i !in polls[k].dead
  }

  /** None of the first n polls finds the supervisor told to stop. */
  predicate Undisturbed(polls: seq<Poll>, n: nat)
    requires n <= |polls|
  {
    forall k | 0 <= k < n :: !polls[k].told
  }

  /** Poll k is the first to report child i, with this status. */
  predicate FirstReport(polls: seq<Poll>, k: nat, i: nat, s: Status) {
    k < |polls| && Unreported(polls, k, i) && i in polls[k].dead && s == polls[k].dead[i]
  }

  /** Nothing is sent to a child that has been reaped, and none is reaped twice: its pid may
      belong to somebody else by then. */
  ghost predicate Timely(log: seq<Event>, doneBefore: seq<bool>) {
    forall k | 0 <= k < |log| :: log[k].i < |doneBefore| && !doneBefore[log[k].i] && Reaped(log[k].i) !in log[..k]
  }

  lemma TimelyGrows(log: seq<Event>, e: Event, doneBefore: seq<bool>)
    requires Timely(log, doneBefore) && e.i < |doneBefore| && !doneBefore[e.i] && Reaped(e.i) !in log
    ensures Timely(log + [e], doneBefore)
  {
    var longer := log + [e];
    forall k | 0 <= k < |longer|
      ensures longer[k].i < |doneBefore| && !doneBefore[longer[k].i] && Reaped(longer[k].i) !in longer[..k]
    {
      assert longer[..k] == log[..k];
    }
  }

  class Supervisor {
    const children: seq<Child>
    var done: seq<bool>
    var stopping: seq<bool>
    var status: seq<Status>
    /** The signals sent and the children reaped, oldest first. */
    var log: seq<Event>
    /** Which children were already done when the log was started. */
    ghost var doneBefore: seq<bool>

    ghost predicate Valid()
      reads this
    {
      && |done| == |stopping| == |status| == |doneBefore| == |children|
      && (forall i | 0 <= i < |children| :: done[i] <==> doneBefore[i] || Reaped(i) in log)
      && Timely(log, doneBefore)
    }

    ghost predicate Ordered()
      requires Valid()
      reads this
    {
      LoaderLast(children, log, doneBefore)
    }

    /** Every child but the loader is gone. */
    ghost predicate OnlyLoaderLeft()
      requires Valid()
      reads this
    {
      forall j | 0 <= j < |children| && children[j].kind != LoaderChild :: done[j]
    }

    /** No child has ended in a way it should not have. */
    ghost predicate NobodyComplains()
      requires Valid()
      reads this
    {
      forall j | 0 <= j < |children| :: !Complains(children[j], done[j], stopping[j], status[j])
    }

    /** Nothing that was done or told is forgotten. */
    twostate predicate Grew()
      reads this
    {
      && old(log) <= log && doneBefore == old(doneBefore)
      && |done| == |old(done)| && |stopping| == |old(stopping)| && |status| == |old(status)|
      && (forall i | 0 <= i < |done| :: old(done)[i] ==> done[i])
      && (|done| == |status| ==> forall i | 0 <= i < |done| :: old(done)[i] ==> status[i] == old(status)[i])
    }

    constructor (children: seq<Child>, done: seq<bool>, stopping: seq<bool>, status: seq<Status>)
      requires |done| == |stopping| == |status| == |children|
      ensures Valid() && Ordered() && this.children == children && this.done == done && log == []
    {
      this.children, this.done, this.stopping, this.status := children, done, stopping, status;
      this.log, this.doneBefore := [], done;
    }

    method Append(e: Event)
      requires Valid() && !e.Reaped? && e.i < |children| && !done[e.i]
      modifies this`log
      ensures Valid() && log == old(log) + [e]
      ensures old(Ordered()) && (e.Term? && children[e.i].kind == LoaderChild ==> OnlyLoaderLeft()) ==> Ordered()
    {
      if Ordered() && (e.Term? && children[e.i].kind == LoaderChild ==> OnlyLoaderLeft()) {
        LogGrows(children, log, e, doneBefore);
      }
      TimelyGrows(log, e, doneBefore);
      log := log + [e];
    }

    /** waitpid returned for child i. */
    method MarkReaped(i: nat, s: Status)
      requires Valid() && i < |children| && !done[i]
      modifies this`log, this`done, this`status
      ensures Valid() && Grew() && (old(Ordered()) ==> Ordered())
      ensures done == old(done)[i := true] && status == old(status)[i := s] && log == old(log) + [Reaped(i)]
    {
      if Ordered() {
        LogGrows(children, log, Reaped(i), doneBefore);
      }
      TimelyGrows(log, Reaped(i), doneBefore);
      log, done, status := log + [Reaped(i)], done[i := true], status[i := s];
    }

    method TakeOver(i: nat, dead: map<nat, Status>)
      requires Valid() && i < |children|
      modifies this`log, this`done, this`status
      ensures Valid() && Grew() && (old(Ordered()) ==> Ordered())
      ensures done == old(done)[i := old(done)[i] || i in dead]
      ensures status == if !old(done)[i] && i in dead then old(status)[i := dead[i]] else old(status)
    {
      if !done[i] && i in dead {
        MarkReaped(i, dead[i]);
      }
    }

    /** reap: takes over what waitpid reports, and complains about children that ended
        without being told to, or badly. */
    method Reap(dead: map<nat, Status>) returns (failed: bool)
      requires Valid()
      modifies this`log, this`done, this`status
      ensures Valid() && Grew() && (old(Ordered()) ==> Ordered())
      ensures forall i | 0 <= i < |children| :: done[i] == (old(done)[i] || i in dead)
      ensures forall i | 0 <= i < |children| && !old(done)[i] && i in dead :: status[i] == dead[i]
      ensures failed <==> !NobodyComplains()
    {
      failed := false;
      for i := 0 to |children|
        invariant Valid() && Grew() && (old(Ordered()) ==> Ordered())
        invariant forall j | 0 <= j < i :: done[j] == (old(done)[j] || j in dead)
        invariant forall j | i <= j < |children| :: done[j] == old(done)[j]
        invariant forall j | 0 <= j < i && !old(done)[j] && j in dead :: status[j] == dead[j]
        invariant failed <==> exists j :: 0 <= j < i && Complains(children[j], done[j], stopping[j], status[j])
      {
        TakeOver(i, dead);
        if Complains(children[i], done[i], stopping[i], status[i]) {
          failed := true;
        }
      }
    }

    /** TERM, once, to a child that is neither done nor told. */
    method RequestStop(i: nat)
      requires Valid() && i < |children|
      modifies this`log, this`stopping
      ensures Valid() && Grew()
      ensures old(Ordered()) && (children[i].kind == LoaderChild ==> OnlyLoaderLeft()) ==> Ordered()
      ensures stopping == if done[i] then old(stopping) else old(stopping)[i := true]
      ensures log == if done[i] || old(stopping)[i] then old(log) else old(log) + [Term(i)]
    {
      if !done[i] && !stopping[i] {
        Append(Term(i));
        stopping := stopping[i := true];
      }
    }

    method KillChild(i: nat, killed: Status)
      requires Valid() && i < |children| && !done[i]
      modifies this`log, this`done, this`stopping, this`status
      ensures Valid() && Grew() && (old(Ordered()) ==> Ordered())
      ensures done[i] && stopping[i] && status[i] == killed && log == old(log) + [Kill(i), Reaped(i)]
    {
      stopping := stopping[i := true];
      Append(Kill(i));
      MarkReaped(i, killed);
    }

    /** wait_child: polls all children until this one is gone, kills it when time is up
        (after the last of `polls`; it then ends with `killed`), and judges how it ended.
        In its cleanup form it heeds neither a request to stop nor other children. */
    method WaitChild(i: nat, cleanup: bool, polls: seq<Poll>, killed: Status) returns (r: WaitResult)
      requires Valid() && i < |children|
      modifies this`log, this`done, this`stopping, this`status
      ensures Valid() && Grew() && (old(Ordered()) ==> Ordered())
      ensures r == Fine ==> done[i] && EndedWell(children[i], status[i], stopping[i])
      ensures r == BadStatus ==> done[i] && !EndedWell(children[i], status[i], stopping[i])
      ensures r == TimedOut ==> done[i] && stopping[i] && status[i] == killed && |log| >= 2 && log[|log| - 2..] == [Kill(i), Reaped(i)]
      ensures r == Interrupted ==> !cleanup && exists k :: 0 <= k < |polls| && polls[k].told && Unreported(polls, k, i)
      ensures r == TimedOut <==> !old(done)[i] && Unreported(polls, |polls|, i) && r !in {Interrupted, SomeChildFailed}
      ensures !old(done)[i] && r in {Fine, BadStatus} ==>
                exists k: nat :: FirstReport(polls, k, i, status[i]) && (!cleanup ==> Undisturbed(polls, k + 1) && NobodyComplains())
      ensures !cleanup && r == TimedOut ==> Undisturbed(polls, |polls|)
      ensures r == SomeChildFailed ==> !cleanup && !NobodyComplains()
      ensures cleanup ==> done[i]
      ensures r != TimedOut ==> stopping == old(stopping)
      ensures old(done)[i] ==> r in {Fine, BadStatus} && log == old(log) && done == old(done)
    {
      var k := 0;
      ghost var found := 0;
      while !done[i] && k < |polls|
        invariant Valid() && Grew() && (old(Ordered()) ==> Ordered()) && k <= |polls| && stopping == old(stopping)
        invariant !done[i] ==> Unreported(polls, k, i)
        invariant done[i] && !old(done)[i] ==> FirstReport(polls, found, i, status[i]) && k == found + 1 && (!cleanup ==> NobodyComplains())
        invariant !cleanup ==> Undisturbed(polls, k)
        invariant old(done)[i] ==> log == old(log) && done == old(done)
        decreases |polls| - k
      {
        if !cleanup && polls[k].told {
          return Interrupted;
        }
        found := k;
        var failed := Reap(polls[k].dead);
        if failed && !cleanup {
          return SomeChildFailed;
        }
        k := k + 1;
      }
      if !done[i] {
        KillChild(i, killed);
        return TimedOut;
      }
      return if EndedWell(children[i], status[i], stopping[i]) then Fine else BadStatus;
    }

    /** stop_child. */
    method StopChild(i: nat, polls: seq<Poll>, killed: Status) returns (r: WaitResult)
      requires Valid() && i < |children|
      modifies this`log, this`done, this`stopping, this`status
      ensures Valid() && Grew() && done[i]
      ensures old(Ordered()) && (children[i].kind == LoaderChild ==> old(OnlyLoaderLeft())) ==> Ordered()
      ensures r in {Fine, BadStatus, TimedOut} && (r == Fine ==> EndedWell(children[i], status[i], stopping[i]))
    {
      RequestStop(i);
      r := WaitChild(i, true, polls, killed);
    }

    /** Every child that was alive got its signals: TERM unless it had one already, and
        USR1 when it may be waiting at a flush barrier. */
    twostate predicate Signalled(i: nat)
      requires |old(done)| == |old(stopping)| == |children| && i < |children|
      reads this
    {
      && (children[i].kind != LoaderChild && !old(done)[i] && !old(stopping)[i] ==> Term(i) in log)
      && (children[i].kind == BarrierChild && !old(done)[i] ==> Usr1(i) in log)
    }

    /** cleanup_children: stop everything but the loader, release the flush barriers, wait
        for everything but the loader, then stop the loader. */
    method CleanupChildren(polls: nat -> seq<Poll>, killed: Status)
      requires Valid()
      modifies this
      ensures Valid() && Grew() && (old(Ordered()) ==> Ordered())
      ensures forall i | 0 <= i < |children| :: done[i] && Signalled(i)
    {
      SignalAll();
      ghost var signals := log;
      forall i | 0 <= i < |children|
        ensures children[i].kind != LoaderChild && !old(done)[i] && !old(stopping)[i] ==> Term(i) in signals
        ensures children[i].kind == BarrierChild && !old(done)[i] ==> Usr1(i) in signals
      {
        assert Signalled(i);
      }
      WaitAll(polls, killed);
      forall e | e in signals
        ensures e in log
      {
        var k :| 0 <= k < |signals| && signals[k] == e;
        assert log[k] == e;
      }
      forall i | 0 <= i < |children|
        ensures Signalled(i)
      {
        assert Term(i) in signals ==> Term(i) in log;
        assert Usr1(i) in signals ==> Usr1(i) in log;
      }
    }

    method WaitAll(polls: nat -> seq<Poll>, killed: Status)
      requires Valid()
      modifies this`log, this`done, this`stopping, this`status
      ensures Valid() && Grew() && (old(Ordered()) ==> Ordered())
      ensures forall i | 0 <= i < |children| :: done[i]
    {
      WaitOthers(polls, killed);
      StopLoaders(polls, killed);
    }

    method WaitOthers(polls: nat -> seq<Poll>, killed: Status)
      requires Valid()
      modifies this`log, this`done, this`stopping, this`status
      ensures Valid() && Grew() && (old(Ordered()) ==> Ordered()) && OnlyLoaderLeft()
    {
      for i := 0 to |children|
        invariant Valid() && Grew() && (old(Ordered()) ==> Ordered())
        invariant forall j | 0 <= j < i && children[j].kind != LoaderChild :: done[j]
      {
        if children[i].kind != LoaderChild {
          var _ := WaitChild(i, true, polls(i), killed);
        }
      }
    }

    method StopLoaders(polls: nat -> seq<Poll>, killed: Status)
      requires Valid() && OnlyLoaderLeft()
      modifies this`log, this`done, this`stopping, this`status
      ensures Valid() && Grew() && (old(Ordered()) ==> Ordered())
      ensures forall i | 0 <= i < |children| :: done[i]
    {
      for i := 0 to |children|
        invariant Valid() && Grew() && (old(Ordered()) ==> Ordered())
        invariant OnlyLoaderLeft() && forall j | 0 <= j < i :: done[j]
      {
        if children[i].kind == LoaderChild {
          var _ := StopChild(i, polls(i), killed);
        }
      }
    }

    method SignalAll()
      requires Valid()
      modifies this`log, this`stopping
      ensures Valid() && Grew() && (old(Ordered()) ==> Ordered()) && forall i | 0 <= i < |children| :: Signalled(i)
    {
      for i := 0 to |children|
        invariant Valid() && Grew() && (old(Ordered()) ==> Ordered()) && stopping[i..] == old(stopping)[i..]
        invariant forall j | 0 <= j < i && children[j].kind != LoaderChild && !done[j] && !old(stopping)[j] :: Term(j) in log
      {
        if children[i].kind != LoaderChild {
          assert stopping[i] == stopping[i..][0] == old(stopping)[i..][0];
          assert stopping[i + 1..] == stopping[i..][1..] == old(stopping)[i..][1..];
          RequestStop(i);
        }
      }
      for i := 0 to |children|
        invariant Valid() && Grew() && (old(Ordered()) ==> Ordered())
        invariant forall j | 0 <= j < |children| && children[j].kind != LoaderChild && !done[j] && !old(stopping)[j] :: Term(j) in log
        invariant forall j | 0 <= j < i && children[j].kind == BarrierChild && !done[j] :: Usr1(j) in log
      {
        if children[i].kind == BarrierChild && !done[i] {
          Append(Usr1(i));
        }
      }
    }
  }
}
