/**
 * The lifecycle of cleanup runs: any number of services in one process, each with its runs and its calls of
 * Close, interleaved step by step. One step is one section of code under a lock, or one atomic operation.
 */
module CleanupLifecycle {
  import opened Options

  /** Where a run stands between registering and leaving the wait group. */
  datatype Pc = Registered | Locked | Running | Unmarked | Released | Finished

  /** A run started by StartFullCleanup, or by ExecuteFullCleanupContext when `checksContext`. */
  datatype Run = Run(service: nat, checksContext: bool, pc: Pc)

  datatype Service = Service(cancelled: bool, waitGroup: nat, isRunning: bool)

  datatype Closer = Closer(service: nat, returned: bool)

  datatype State = State(
    lock: Option<nat>, services: map<nat, Service>, runs: map<nat, Run>, closers: map<nat, Closer>)

  datatype Event =
    | NewService(s: nat)
    | Register(r: nat, s: nat, checksContext: bool)
    | Abandon(r: nat)
    | TryLock(r: nat)
    | Mark(r: nat)
    | Unmark(r: nat)
    | Unlock(r: nat)
    | Done(r: nat)
    | Cancel(c: nat, s: nat)
    | CloseReturns(c: nat)

  const START := State(None, map[], map[], map[])

  predicate At(st: State, r: nat, pc: Pc) {
    r in st.runs && st.runs[r].pc == pc && st.runs[r].service in st.services
  }

  predicate Enabled(st: State, e: Event) {
    match e
    case NewService(s) => s !in st.services
    case Register(r, s, _) => r !in st.runs && s in st.services
    case Abandon(r) => At(st, r, Registered) && st.runs[r].checksContext
    case TryLock(r) => At(st, r, Registered)
    case Mark(r) => At(st, r, Locked)
    case Unmark(r) => At(st, r, Running)
    case Unlock(r) => At(st, r, Unmarked)
    case Done(r) => At(st, r, Released) && st.services[st.runs[r].service].waitGroup > 0
    case Cancel(c, s) => c !in st.closers && s in st.services
    case CloseReturns(c) =>
      && c in st.closers && !st.closers[c].returned && st.closers[c].service in st.services
      && st.services[st.closers[c].service].waitGroup == 0
  }

  function Move(st: State, r: nat, pc: Pc): State
    requires r in st.runs
  {
    st.(runs := st.runs[r := st.runs[r].(pc := pc)])
  }

  function SetService(st: State, s: nat, service: Service): State {
    st.(services := st.services[s := service])
  }

  function Next(st: State, e: Event): State
    requires Enabled(st, e)
  {
    match e
    case NewService(s) => SetService(st, s, Service(false, 0, false))
    case Register(r, s, checksContext) =>
      var service := st.services[s];
      if service.cancelled then st
      else SetService(st, s, service.(waitGroup := service.waitGroup + 1))
           .(runs := st.runs[r := Run(s, checksContext, Registered)])
    case Abandon(r) => Move(st, r, Released)
    case TryLock(r) => if st.lock.Some? then Move(st, r, Released) else Move(st, r, Locked).(lock := Some(r))
    case Mark(r) =>
      var s := st.runs[r].service;
      SetService(Move(st, r, Running), s, st.services[s].(isRunning := true))
    case Unmark(r) =>
      var s := st.runs[r].service;
      SetService(Move(st, r, Unmarked), s, st.services[s].(isRunning := false))
    case Unlock(r) => Move(st, r, Released).(lock := None)
    case Done(r) =>
      var s := st.runs[r].service;
      SetService(Move(st, r, Finished), s, st.services[s].(waitGroup := st.services[s].waitGroup - 1))
    case Cancel(c, s) =>
      SetService(st, s, st.services[s].(cancelled := true)).(closers := st.closers[c := Closer(s, false)])
    case CloseReturns(c) => st.(closers := st.closers[c := st.closers[c].(returned := true)])
  }

  predicate Legal(st: State, events: seq<Event>)
    decreases |events|
  {
    events == [] || (Enabled(st, events[0]) && Legal(Next(st, events[0]), events[1..]))
  }

  function After(st: State, events: seq<Event>): State
    requires Legal(st, events)
    decreases |events|
  {
    if events == [] then st else After(Next(st, events[0]), events[1..])
  }

  // ------------------------------------------------------------------ invariants

  predicate Executing(pc: Pc) {
    pc.Locked? || pc.Running? || pc.Unmarked?
  }

  function Unfinished(st: State, s: nat): set<nat> {
    set r | r in st.runs && st.runs[r].service == s && !st.runs[r].pc.Finished?
  }

  function RunningIn(st: State, s: nat): set<nat> {
    set r | r in st.runs && st.runs[r].service == s && st.runs[r].pc.Running?
  }

  predicate Known(st: State) {
    && (forall r :: r in st.runs ==> st.runs[r].service in st.services)
    && (forall c :: c in st.closers ==> st.closers[c].service in st.services)
  }

  /** The process-wide lock is held by exactly the run that executes. */
  predicate LockHeld(st: State) {
    && (st.lock.Some? ==> st.lock.value in st.runs)
    && forall r :: r in st.runs ==> (st.lock == Some(r) <==> Executing(st.runs[r].pc))
  }

  predicate WaitGroupsCount(st: State) {
    forall s :: s in st.services ==> st.services[s].waitGroup == |Unfinished(st, s)|
  }

  predicate StatusTrue(st: State) {
    forall s :: s in st.services ==>
      (st.services[s].isRunning <==> RunningIn(st, s) != {})
  }

  predicate CloseFinal(st: State) {
    forall c :: c in st.closers && st.closers[c].service in st.services ==>
      && st.services[st.closers[c].service].cancelled
      && (st.closers[c].returned ==> Unfinished(st, st.closers[c].service) == {})
  }

  predicate Inv(st: State) {
    Known(st) && LockHeld(st) && WaitGroupsCount(st) && StatusTrue(st) && CloseFinal(st)
  }

  lemma KnownKept(st: State, e: Event)
    requires Known(st) && Enabled(st, e)
    ensures Known(Next(st, e))
  {
  }

  lemma LockKept(st: State, e: Event)
    requires LockHeld(st) && Enabled(st, e)
    ensures LockHeld(Next(st, e))
  {
  }

  /** How a step changes the unfinished runs of a service. */
  lemma UnfinishedChange(st: State, e: Event, s: nat)
    requires Enabled(st, e)
    ensures Unfinished(Next(st, e), s) ==
            if e.Register? && e.s == s && !st.services[s].cancelled then Unfinished(st, s) + {e.r}
            else if e.Done? && st.runs[e.r].service == s then Unfinished(st, s) - {e.r}
            else Unfinished(st, s)
  {
    var next := Next(st, e);
    forall r
      ensures r in Unfinished(next, s) <==>
              r in if e.Register? && e.s == s && !st.services[s].cancelled then Unfinished(st, s) + {e.r}
                   else if e.Done? && st.runs[e.r].service == s then Unfinished(st, s) - {e.r}
                   else Unfinished(st, s) {
    }
  }

  /** How a step changes the count of a service. */
  lemma WaitGroupChange(st: State, e: Event, s: nat)
    requires Enabled(st, e) && s in Next(st, e).services
    ensures Next(st, e).services[s].waitGroup ==
            if e.Register? && e.s == s && !st.services[s].cancelled then st.services[s].waitGroup + 1
            else if e.Done? && st.runs[e.r].service == s then st.services[s].waitGroup - 1
            else if s in st.services then st.services[s].waitGroup
            else 0
  {
  }

  lemma WaitGroupsKept(st: State, e: Event)
    requires Known(st) && WaitGroupsCount(st) && Enabled(st, e)
    ensures WaitGroupsCount(Next(st, e))
  {
    hide Unfinished, Next;
    forall s | s in Next(st, e).services
      ensures Next(st, e).services[s].waitGroup == |Unfinished(Next(st, e), s)| {
      UnfinishedChange(st, e, s);
      UnfinishedMembers(st, e, s);
      WaitGroupChange(st, e, s);
    }
  }

  lemma UnfinishedMembers(st: State, e: Event, s: nat)
    requires Known(st) && Enabled(st, e)
    ensures e.Register? ==> e.r !in Unfinished(st, s)
    ensures e.Done? && st.runs[e.r].service == s ==> e.r in Unfinished(st, s)
    ensures s !in st.services ==> Unfinished(st, s) == {}
  {
  }

  /** How a step changes the running runs of a service. */
  lemma RunningChange(st: State, e: Event, s: nat)
    requires Enabled(st, e)
    ensures RunningIn(Next(st, e), s) ==
            if e.Mark? && st.runs[e.r].service == s then RunningIn(st, s) + {e.r}
            else if e.Unmark? && st.runs[e.r].service == s then RunningIn(st, s) - {e.r}
            else RunningIn(st, s)
  {
    var next := Next(st, e);
    forall r
      ensures r in RunningIn(next, s) <==>
              r in if e.Mark? && st.runs[e.r].service == s then RunningIn(st, s) + {e.r}
                   else if e.Unmark? && st.runs[e.r].service == s then RunningIn(st, s) - {e.r}
                   else RunningIn(st, s) {
    }
  }

  /** Nobody else runs when a run leaves. */
  lemma LastRunning(st: State, r: nat, s: nat)
    requires LockHeld(st) && At(st, r, Running)
    ensures RunningIn(st, s) <= {r}
  {
  }

  lemma StatusKept(st: State, e: Event)
    requires Known(st) && LockHeld(st) && StatusTrue(st) && Enabled(st, e)
    ensures StatusTrue(Next(st, e))
  {
    hide RunningIn, LockHeld;
    forall s | s in Next(st, e).services
      ensures Next(st, e).services[s].isRunning <==> RunningIn(Next(st, e), s) != {} {
      RunningChange(st, e, s);
      if e.Mark? && st.runs[e.r].service == s { assert e.r in RunningIn(Next(st, e), s); }
      if e.Unmark? { LastRunning(st, e.r, s); }
      if e.NewService? && e.s == s { NoneRunning(st, s); }
    }
  }

  lemma NoneRunning(st: State, s: nat)
    requires Known(st) && s !in st.services
    ensures RunningIn(st, s) == {}
  {
  }

  lemma CloseKept(st: State, e: Event)
    requires Known(st) && WaitGroupsCount(st) && CloseFinal(st) && Enabled(st, e)
    ensures CloseFinal(Next(st, e))
  {
    hide Unfinished;
    var next := Next(st, e);
    forall c | c in next.closers && next.closers[c].service in next.services
      ensures next.services[next.closers[c].service].cancelled
      ensures next.closers[c].returned ==> Unfinished(next, next.closers[c].service) == {} {
      UnfinishedChange(st, e, next.closers[c].service);
    }
  }

  lemma StepKeepsInv(st: State, e: Event)
    requires Inv(st) && Enabled(st, e)
    ensures Inv(Next(st, e))
  {
    hide Next, Known, LockHeld, WaitGroupsCount, StatusTrue, CloseFinal;
    KnownKept(st, e);
    LockKept(st, e);
    WaitGroupsKept(st, e);
    StatusKept(st, e);
    CloseKept(st, e);
  }

  lemma {:induction false} RunKeepsInv(st: State, events: seq<Event>)
    requires Inv(st) && Legal(st, events)
    ensures Inv(After(st, events))
    decreases |events|
  {
    hide Next, Inv, Enabled;
    if events != [] {
      StepKeepsInv(st, events[0]);
      RunKeepsInv(Next(st, events[0]), events[1..]);
    }
  }

  // ------------------------------------------------------------------ whole runs

  /** On every interleaving at most one run executes, in whichever service, and it holds the lock. */
  lemma AtMostOneRuns(events: seq<Event>, r1: nat, r2: nat)
    requires Legal(START, events)
    requires var st := After(START, events);
             && r1 in st.runs && r2 in st.runs && Executing(st.runs[r1].pc) && Executing(st.runs[r2].pc)
    ensures r1 == r2 && After(START, events).lock == Some(r1)
  {
    RunKeepsInv(START, events);
  }

  predicate SomeExecutes(st: State) {
    exists r :: r in st.runs && Executing(st.runs[r].pc)
  }

  /** The lock is taken exactly while some run executes, in whichever service. */
  lemma LockedIffExecuting(events: seq<Event>)
    requires Legal(START, events)
    ensures After(START, events).lock.Some? <==> SomeExecutes(After(START, events))
  {
    RunKeepsInv(START, events);
  }

  /** A registered run that tries the lock gets it, and executes, exactly when no run executes. If one does, that
      one keeps the lock and its place, and the other is on its way out. No other run moves. */
  lemma RefusedIffExecuting(events: seq<Event>, r: nat)
    requires Legal(START, events) && At(After(START, events), r, Registered)
    ensures var st := After(START, events);
            var next := Next(st, TryLock(r));
            && (next.lock == Some(r) <==> !SomeExecutes(st))
            && (Executing(next.runs[r].pc) <==> !SomeExecutes(st))
            && (SomeExecutes(st) ==> next.runs[r].pc == Released && next.lock == st.lock)
            && (forall o :: o in st.runs && o != r ==> o in next.runs && next.runs[o] == st.runs[o])
  {
    RunKeepsInv(START, events);
    TryLockIff(After(START, events), r);
  }

  lemma TryLockIff(st: State, r: nat)
    requires Inv(st) && At(st, r, Registered)
    ensures var next := Next(st, TryLock(r));
            && (next.lock == Some(r) <==> !SomeExecutes(st))
            && (Executing(next.runs[r].pc) <==> !SomeExecutes(st))
            && (SomeExecutes(st) ==> next.runs[r].pc == Released && next.lock == st.lock)
            && (forall o :: o in st.runs && o != r ==> o in next.runs && next.runs[o] == st.runs[o])
  {
    hide WaitGroupsCount, StatusTrue, CloseFinal, Known;
    if st.lock.Some? {
      assert Executing(st.runs[st.lock.value].pc) && st.lock.value != r;
    }
  }

  lemma Two(st: State, e: Event, f: Event)
    requires Enabled(st, e) && Enabled(Next(st, e), f)
    ensures Legal(st, [e, f]) && After(st, [e, f]) == Next(Next(st, e), f)
  {
    hide Next, Enabled;
    var mid := Next(st, e);
    assert [e, f][1..] == [f] && [f][1..] == [];
    assert Legal(Next(mid, f), []) && After(Next(mid, f), []) == Next(mid, f);
    assert Legal(mid, [f]) && After(mid, [f]) == Next(mid, f);
  }

  /** From every reachable state in which nothing executes, any registered run can be brought to run. */
  lemma RegisteredCanRun(events: seq<Event>, r: nat)
    requires Legal(START, events) && At(After(START, events), r, Registered) && !SomeExecutes(After(START, events))
    ensures Legal(After(START, events), [TryLock(r), Mark(r)])
    ensures var st := After(START, events);
            var end := After(st, [TryLock(r), Mark(r)]);
            && end.runs == st.runs[r := st.runs[r].(pc := Running)] && end.lock == Some(r)
            && At(end, r, Running) && end.services[st.runs[r].service].isRunning
  {
    RunKeepsInv(START, events);
    Two(After(START, events), TryLock(r), Mark(r));
  }

  /** A new run registers with its service's wait group exactly when the service has not been cancelled; a
      refused one leaves no trace. */
  lemma RegistersIff(events: seq<Event>, r: nat, s: nat, checksContext: bool)
    requires Legal(START, events) && Enabled(After(START, events), Register(r, s, checksContext))
    ensures var st := After(START, events);
            var next := Next(st, Register(r, s, checksContext));
            && s in st.services
            && (At(next, r, Registered) <==> !st.services[s].cancelled)
            && (At(next, r, Registered) ==>
                  next.runs[r] == Run(s, checksContext, Registered)
                  && |Unfinished(next, s)| == |Unfinished(st, s)| + 1)
            && (st.services[s].cancelled ==> next == st)
  {
    RunKeepsInv(START, events);
    UnfinishedChange(After(START, events), Register(r, s, checksContext), s);
  }

  /** A whole run, as it goes when nothing comes between: the service is marked while it runs, and nothing but the
      finished run is left of it. */
  lemma UndisturbedRun(events: seq<Event>, r: nat, s: nat, checksContext: bool)
    requires Legal(START, events)
    requires var st := After(START, events);
             r !in st.runs && s in st.services && !st.services[s].cancelled && !SomeExecutes(st)
    ensures Legal(After(START, events), [Register(r, s, checksContext), TryLock(r), Mark(r)])
    ensures var st := After(START, events);
            var mid := After(st, [Register(r, s, checksContext), TryLock(r), Mark(r)]);
            && At(mid, r, Running) && mid.lock == Some(r) && s in mid.services && mid.services[s].isRunning
            && Legal(mid, [Unmark(r), Unlock(r), Done(r)])
            && After(mid, [Unmark(r), Unlock(r), Done(r)]) ==
               st.(runs := st.runs[r := Run(s, checksContext, Finished)])
  {
    hide Next, Enabled;
    RunKeepsInv(START, events);
    var st := After(START, events);
    NoneRunningIdle(st, s);
    FirstHalf(st, r, s, checksContext);
    SecondHalf(Underway(st, r, s, checksContext), r);
    RunIsOver(st, r, s, checksContext);
  }

  /** The state in which the new run executes. */
  function Underway(st: State, r: nat, s: nat, checksContext: bool): State
    requires s in st.services
  {
    var service := st.services[s];
    State(Some(r), st.services[s := service.(waitGroup := service.waitGroup + 1, isRunning := true)],
          st.runs[r := Run(s, checksContext, Running)], st.closers)
  }

  lemma FirstHalf(st: State, r: nat, s: nat, checksContext: bool)
    requires r !in st.runs && s in st.services && !st.services[s].cancelled && st.lock == None
    ensures Legal(st, [Register(r, s, checksContext), TryLock(r), Mark(r)])
    ensures After(st, [Register(r, s, checksContext), TryLock(r), Mark(r)]) == Underway(st, r, s, checksContext)
  {
    var service := st.services[s];
    var counted := st.services[s := service.(waitGroup := service.waitGroup + 1)];
    var s1 := State(None, counted, st.runs[r := Run(s, checksContext, Registered)], st.closers);
    var s2 := State(Some(r), counted, st.runs[r := Run(s, checksContext, Locked)], st.closers);
    hide Next, Enabled;
    Registers(st, s1, r, s, checksContext);
    LocksAndMarks(s1, s2, Underway(st, r, s, checksContext), r, s);
    Three(st, Register(r, s, checksContext), TryLock(r), Mark(r));
  }

  lemma Registers(st: State, next: State, r: nat, s: nat, checksContext: bool)
    requires r !in st.runs && s in st.services && !st.services[s].cancelled
    requires next == State(st.lock, st.services[s := st.services[s].(waitGroup := st.services[s].waitGroup + 1)],
                           st.runs[r := Run(s, checksContext, Registered)], st.closers)
    ensures Enabled(st, Register(r, s, checksContext)) && Next(st, Register(r, s, checksContext)) == next
  {
  }

  lemma LocksAndMarks(s1: State, s2: State, s3: State, r: nat, s: nat)
    requires At(s1, r, Registered) && s1.runs[r].service == s && s1.lock == None
    requires s2 == State(Some(r), s1.services, s1.runs[r := s1.runs[r].(pc := Locked)], s1.closers)
    requires s3 == State(Some(r), s1.services[s := s1.services[s].(isRunning := true)],
                         s1.runs[r := s1.runs[r].(pc := Running)], s1.closers)
    ensures Enabled(s1, TryLock(r)) && Next(s1, TryLock(r)) == s2
    ensures Enabled(s2, Mark(r)) && Next(s2, Mark(r)) == s3
  {
    assert s2.runs[r := s2.runs[r].(pc := Running)] == s3.runs;
  }

  lemma SecondHalf(st: State, r: nat)
    requires At(st, r, Running) && st.services[st.runs[r].service].waitGroup > 0
    ensures Legal(st, [Unmark(r), Unlock(r), Done(r)])
    ensures var s := st.runs[r].service;
            After(st, [Unmark(r), Unlock(r), Done(r)]) ==
            State(None, st.services[s := st.services[s].(waitGroup := st.services[s].waitGroup - 1, isRunning := false)],
                  st.runs[r := st.runs[r].(pc := Finished)], st.closers)
  {
    var s4 := Next(st, Unmark(r));
    var s5 := Next(s4, Unlock(r));
    var s6 := Next(s5, Done(r));
    var s := st.runs[r].service;
    assert s6.runs == st.runs[r := st.runs[r].(pc := Finished)];
    assert s6.services == st.services[s := st.services[s].(waitGroup := st.services[s].waitGroup - 1, isRunning := false)];
    Three(st, Unmark(r), Unlock(r), Done(r));
  }

  lemma RunIsOver(st: State, r: nat, s: nat, checksContext: bool)
    requires s in st.services && !st.services[s].isRunning
    ensures var mid := Underway(st, r, s, checksContext);
            && mid.services[s := mid.services[s].(waitGroup := mid.services[s].waitGroup - 1, isRunning := false)] ==
               st.services
            && mid.runs[r := mid.runs[r].(pc := Finished)] == st.runs[r := Run(s, checksContext, Finished)]
  {
  }

  lemma NoneRunningIdle(st: State, s: nat)
    requires Inv(st) && s in st.services && !SomeExecutes(st)
    ensures !st.services[s].isRunning && st.lock == None
  {
    forall r | r in st.runs ensures !st.runs[r].pc.Running? {
      assert !Executing(st.runs[r].pc);
    }
  }

  lemma Three(st: State, e: Event, f: Event, g: Event)
    requires Enabled(st, e) && Enabled(Next(st, e), f) && Enabled(Next(Next(st, e), f), g)
    ensures Legal(st, [e, f, g]) && After(st, [e, f, g]) == Next(Next(Next(st, e), f), g)
  {
    hide Next, Enabled;
    Two(Next(st, e), f, g);
    assert [e, f, g][1..] == [f, g];
  }

  /** A run that gives up because its context has ended leaves without ever having executed. */
  lemma AbandonedRun(events: seq<Event>, r: nat)
    requires Legal(START, events) && At(After(START, events), r, Registered)
    ensures var st := After(START, events);
            && (Enabled(st, Abandon(r)) <==> st.runs[r].checksContext)
            && (st.runs[r].checksContext ==> Legal(st, [Abandon(r), Done(r)]))
    ensures var st := After(START, events);
            st.runs[r].checksContext ==>
              var end := After(st, [Abandon(r), Done(r)]);
              end.runs == st.runs[r := st.runs[r].(pc := Finished)] && end.lock == st.lock
  {
    var st := After(START, events);
    RunKeepsInv(START, events);
    var s := st.runs[r].service;
    assert r in Unfinished(st, s) && st.services[s].waitGroup == |Unfinished(st, s)|;
    if st.runs[r].checksContext {
      Two(st, Abandon(r), Done(r));
    }
  }

  predicate BeingClosed(st: State, s: nat) {
    exists c :: c in st.closers && st.closers[c].service == s
  }

  predicate CancelledByClose(st: State) {
    forall s :: s in st.services && st.services[s].cancelled ==> BeingClosed(st, s)
  }

  lemma CancelledByCloseKept(st: State, e: Event)
    requires Known(st) && CancelledByClose(st) && Enabled(st, e)
    ensures CancelledByClose(Next(st, e))
  {
    var next := Next(st, e);
    forall s | s in next.services && next.services[s].cancelled
      ensures BeingClosed(next, s) {
      if e.Cancel? && e.s == s {
        assert next.closers[e.c].service == s;
      } else {
        var c :| c in st.closers && st.closers[c].service == s;
        assert c in next.closers && next.closers[c].service == s;
      }
    }
  }

  lemma {:induction false} RunKeepsCancelled(st: State, events: seq<Event>)
    requires Inv(st) && CancelledByClose(st) && Legal(st, events)
    ensures CancelledByClose(After(st, events))
    decreases |events|
  {
    hide Next, Enabled, CancelledByClose;
    if events != [] {
      StepKeepsInv(st, events[0]);
      CancelledByCloseKept(st, events[0]);
      RunKeepsCancelled(Next(st, events[0]), events[1..]);
    }
  }

  /** Services come and calls of Close are made at any time, and runs try to register at any time. A call of Close
      returns as soon as the wait group of its service is empty, and not before. */
  lemma OpenSteps(events: seq<Event>, s: nat, c: nat, r: nat)
    requires Legal(START, events)
    ensures var st := After(START, events);
            && (s !in st.services ==> Enabled(st, NewService(s)))
            && (s in st.services && c !in st.closers ==> Enabled(st, Cancel(c, s)))
            && (s in st.services && r !in st.runs ==> Enabled(st, Register(r, s, true)) && Enabled(st, Register(r, s, false)))
            && (c in st.closers && !st.closers[c].returned ==>
                  (Enabled(st, CloseReturns(c)) <==> Unfinished(st, st.closers[c].service) == {}))
  {
    RunKeepsInv(START, events);
  }

  /** A service takes new runs until somebody calls Close: it is cancelled exactly when a call was made. */
  lemma CancelledIffClosed(events: seq<Event>, s: nat)
    requires Legal(START, events) && s in After(START, events).services
    ensures After(START, events).services[s].cancelled <==> BeingClosed(After(START, events), s)
  {
    RunKeepsInv(START, events);
    RunKeepsCancelled(START, events);
  }

  lemma WaitGroupIsUnfinishedRuns(events: seq<Event>, s: nat)
    requires Legal(START, events) && s in After(START, events).services
    ensures var st := After(START, events);
            && st.services[s].waitGroup == |Unfinished(st, s)|
            && (st.services[s].isRunning <==> RunningIn(st, s) != {})
  {
    RunKeepsInv(START, events);
  }

  predicate Closed(st: State, s: nat) {
    exists c :: c in st.closers && st.closers[c] == Closer(s, true)
  }

  function RunsOf(st: State, s: nat): set<nat> {
    set r | r in st.runs && st.runs[r].service == s
  }

  lemma StepAfterClose(st: State, e: Event, s: nat)
    requires Inv(st) && Enabled(st, e) && Closed(st, s)
    ensures Closed(Next(st, e), s) && RunsOf(Next(st, e), s) == RunsOf(st, s)
  {
    hide LockHeld, StatusTrue, WaitGroupsCount, Unfinished;
    var next := Next(st, e);
    var c :| c in st.closers && st.closers[c] == Closer(s, true);
    assert st.services[st.closers[c].service].cancelled;
    assert c in next.closers && next.closers[c] == Closer(s, true);
    assert forall r :: r in RunsOf(next, s) <==> r in RunsOf(st, s);
  }

  lemma {:induction false} RunAfterClose(st: State, events: seq<Event>, s: nat)
    requires Inv(st) && Legal(st, events) && Closed(st, s)
    ensures Closed(After(st, events), s) && RunsOf(After(st, events), s) == RunsOf(st, s)
    decreases |events|
  {
    hide Next, Inv, Enabled, Closed, RunsOf;
    if events != [] {
      StepKeepsInv(st, events[0]);
      StepAfterClose(st, events[0], s);
      RunAfterClose(Next(st, events[0]), events[1..], s);
    }
  }

  /** Once Close has returned, no run of the service is active, and whatever happens later none ever starts. */
  lemma CloseIsFinal(events: seq<Event>, later: seq<Event>, s: nat)
    requires Legal(START, events) && Closed(After(START, events), s)
    requires Legal(After(START, events), later)
    ensures var st := After(START, events);
            var end := After(st, later);
            && Unfinished(st, s) == {} && Unfinished(end, s) == {}
            && RunsOf(end, s) == RunsOf(st, s)
            && (s in end.services ==> !end.services[s].isRunning)
  {
    hide Next, Enabled, RunsOf, Legal;
    var st := After(START, events);
    RunKeepsInv(START, events);
    RunAfterClose(st, later, s);
    RunKeepsInv(st, later);
    ClosedIsIdle(st, s);
    ClosedIsIdle(After(st, later), s);
  }

  lemma ClosedIsIdle(st: State, s: nat)
    requires Inv(st) && Closed(st, s)
    ensures Unfinished(st, s) == {}
    ensures s in st.services ==> !st.services[s].isRunning
  {
    var c :| c in st.closers && st.closers[c] == Closer(s, true);
    assert st.closers[c].service in st.services;
    assert RunningIn(st, s) <= Unfinished(st, s);
  }

  // ------------------------------------------------------------------ Close can return

  /** The next step of an unfinished run; nothing it does can block. */
  function NextStep(st: State, r: nat): Event
    requires r in st.runs
  {
    match st.runs[r].pc
    case Registered => TryLock(r)
    case Locked => Mark(r)
    case Running => Unmark(r)
    case Unmarked => Unlock(r)
    case Released => Done(r)
    case Finished => Done(r)
  }

  function StepsLeft(pc: Pc): nat {
    match pc
    case Registered => 5 case Locked => 4 case Running => 3 case Unmarked => 2 case Released => 1 case Finished => 0
  }

  lemma RunIsNeverStuck(st: State, r: nat, s: nat)
    requires Inv(st) && r in Unfinished(st, s)
    ensures var e := NextStep(st, r);
            && Enabled(st, e)
            && r in Next(st, e).runs
            && StepsLeft(Next(st, e).runs[r].pc) < StepsLeft(st.runs[r].pc)
            && Unfinished(Next(st, e), s) <= Unfinished(st, s)
            && Next(st, e).closers == st.closers
  {
    hide StatusTrue, CloseFinal, LockHeld;
    UnfinishedChange(st, NextStep(st, r), s);
    assert Unfinished(st, s) != {};
  }

  /** Whatever state has been reached, one unfinished run can be driven to its end by its own steps alone. */
  lemma {:induction false} RunCanFinish(st: State, r: nat, s: nat) returns (events: seq<Event>)
    requires Inv(st) && r in Unfinished(st, s)
    ensures Legal(st, events) && Inv(After(st, events))
    ensures Unfinished(After(st, events), s) <= Unfinished(st, s) - {r}
    ensures After(st, events).closers == st.closers && |events| <= 5
    ensures |events| <= StepsLeft(st.runs[r].pc)
    decreases StepsLeft(st.runs[r].pc)
  {
    hide Next, Inv, Enabled, NextStep;
    var e := NextStep(st, r);
    RunIsNeverStuck(st, r, s);
    StepKeepsInv(st, e);
    var next := Next(st, e);
    if r in Unfinished(next, s) {
      var rest := RunCanFinish(next, r, s);
      events := [e] + rest;
      assert events[1..] == rest;
    } else {
      events := [e];
      assert events[1..] == [];
    }
  }

  /** Close never waits for ever by itself: from every reachable state its service's runs alone can end it. */
  lemma {:induction false} CloseCanReturn(st: State, c: nat) returns (events: seq<Event>)
    requires Inv(st) && c in st.closers && !st.closers[c].returned
    ensures Legal(st, events) && c in After(st, events).closers && After(st, events).closers[c].returned
    ensures |events| <= 5 * |Unfinished(st, st.closers[c].service)| + 1
    decreases |Unfinished(st, st.closers[c].service)|
  {
    hide Next, Unfinished;
    var s := st.closers[c].service;
    if r :| r in Unfinished(st, s) {
      var first := RunCanFinish(st, r, s);
      var mid := After(st, first);
      Smaller(Unfinished(mid, s), Unfinished(st, s), r);
      var rest := CloseCanReturn(mid, c);
      Concatenate(st, first, rest);
      events := first + rest;
    } else {
      events := [CloseReturns(c)];
      assert events[1..] == [];
      LastStep(st, c);
    }
  }

  lemma LastStep(st: State, c: nat)
    requires Inv(st) && c in st.closers && !st.closers[c].returned && |Unfinished(st, st.closers[c].service)| == 0
    ensures Enabled(st, CloseReturns(c))
    ensures c in Next(st, CloseReturns(c)).closers && Next(st, CloseReturns(c)).closers[c].returned
  {
  }

  lemma {:induction false} Smaller(a: set<nat>, b: set<nat>, r: nat)
    requires a <= b - {r} && r in b
    ensures |a| < |b|
    decreases |a|
  {
    if x :| x in a {
      Smaller(a - {x}, b - {x}, r);
      assert |b - {x}| == |b| - 1;
    }
  }

  lemma {:induction false} Concatenate(st: State, a: seq<Event>, b: seq<Event>)
    requires Legal(st, a) && Legal(After(st, a), b)
    ensures Legal(st, a + b) && After(st, a + b) == After(After(st, a), b)
    decreases |a|
  {
    hide Next, Enabled;
    if a == [] {
      assert a + b == b;
    } else {
      assert (a + b)[1..] == a[1..] + b;
      Concatenate(Next(st, a[0]), a[1..], b);
    }
  }
}
