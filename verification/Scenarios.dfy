/** Runs in which the protocol does not do what its documentation promises. */
module Scenarios {
  import opened Basics
  import opened Tree
  import opened TreeCover
  import opened Squad
  import opened History
  import opened Invariant
  import opened CallSafety
  import opened Outcome
  import opened Bounded
  import opened Ragged
  import opened Progress
  import opened Termination

  lemma InitialIsReachable(s: State)
    requires Initial(s)
    ensures Reachable(s)
  {
    assert IsRun(s, []) && Final(s, []) == s;
  }

  /** A call that returns and does not join leads to a state in which the next call can be made. */
  lemma CompleteCall(s: State, t: Task) returns (s': State)
    requires Reachable(s) && NestedStrides(|s.th|) && CanCall(s, t) && CallReturns(|s.th|, s.calls + [t]) && !t.joinRequested
    ensures Reachable(s') && s'.main == Ready && s'.calls == s.calls + [t] && |s'.th| == |s.th|
    ensures IsRunning(s'.th[0])
  {
    var s0 := Call(s, t);
    ReachesCall(s, t);
    CallEntry(s, t);
    hide Inv, CallReturns, NestedStrides, Reachable, CanCall, Upwards;
    ReachableGoesUpwards(s0);
    var es := MaximalExecution(s0);
    ReturnsExactly(s0);
    OnlySuchCallsReturn(s0, es);
    s' := Final(s0, es);
    ReachesOn(s0, es);
    RunningMeansCalled(s');
  }

  /** The calls of a caller who first uses one of sixteen threads. */
  ghost predicate UsesOneOfSixteen(s: State, t: Task) {
    |s.th| == 16 && s.main == Ready && s.calls == [t] && t.concurrency == 1 && !t.joinRequested
  }

  lemma SixteenIsNested()
    ensures NestedStrides(16)
  {
    SmallSquadsAreNested(16);
  }

  lemma FreshSquadIsReady(s: State, t: Task)
    requires Initial(s) && 0 < t.concurrency <= |s.th|
    ensures CanCall(s, t) && s.calls == []
  {
  }

  /** There is such a run. */
  lemma OneOfSixteen(start: State, t: Task) returns (s: State)
    requires Initial(start) && |start.th| == 16 && t.concurrency == 1 && !t.joinRequested
    ensures Reachable(s) && UsesOneOfSixteen(s, t) && IsRunning(s.th[0])
  {
    hide NestedStrides, CallReturns, Initial, CanCall, Reachable;
    SixteenIsNested();
    InitialIsReachable(start);
    FreshSquadIsReady(start, t);
    FirstCallReturns(16, t);
    assert start.calls + [t] == [t];
    s := CompleteCall(start, t);
  }

  /** A second call, on all sixteen threads, returns if its action does not synchronize, and thread 3 has not executed it. */
  lemma SkippedThread(s: State, t: Task, u: Task) returns (s': State)
    requires Reachable(s) && UsesOneOfSixteen(s, t)
    requires u.concurrency == 16 && u.rounds == 0 && !u.reduces && !u.joinRequested
    ensures Reachable(s') && s'.main == Ready && s'.calls == [t, u] && |s'.th| == 16
    ensures !WakeSafe(16, s'.calls) && Wanted(s'.calls, 3) == [1] && s'.th[3].ran == []
  {
    assert s.calls + [u] == [t, u];
    SixteenIsNested();
    s' := CompleteCall(s, u);
    UnsafeHistory([t, u]);
    WantedByThread3(t, u);
    RestingHasRun(s', 3);
  }

  lemma WantedByThread3(t: Task, u: Task)
    requires t.concurrency == 1 && u.concurrency == 16
    ensures Wanted([t, u], 3) == [1]
  {
    assert Earlier([t, u]) == [t] && Earlier([t]) == [];
    assert Wanted([t], 3) == [] + [];
  }

  lemma RestingHasRun(s: State, v: nat)
    requires Reachable(s) && NestedStrides(|s.th|) && !Active(s) && v < |s.th|
    ensures s.th[v].ran == Executed(|s.th|, s.calls, v)
  {
    ReachableSafe(s);
    assert RestAt(s, v);
  }

  /** A second call that synchronizes, reduces or joins, such as the destructor's, never returns. */
  lemma SecondCallHangs(s: State, t: Task, u: Task)
    requires Reachable(s) && UsesOneOfSixteen(s, t) && CanCall(s, u) && WakeCount(16, u) == 16
    requires u.joinRequested || u.rounds > 0 || u.reduces
    ensures !AlwaysReturns(Call(s, u)) && !MayReturn(Call(s, u))
    ensures forall es :: IsExecution(Call(s, u), es) ==> Active(Final(Call(s, u), es)) && |es| <= Measure(Call(s, u))
  {
    var s0 := Call(s, u);
    ReachesCall(s, u);
    CallEntry(s, u);
    assert s.calls + [u] == [t, u];
    UnsafeHistory([t, u]);
    assert !AllWoken(16, [t, u]) by {
      assert !Live(16, [t, u], 3);
    }
    hide Inv, AllWoken, Measure, Reachable;
    SixteenIsNested();
    ReturnsExactly(s0);
    forall es | IsExecution(s0, es) ensures |es| <= Measure(s0) {
      ExecutionsAreBounded(s0, es);
    }
  }

  /** The destructor's call. */
  lemma DestructorHangs(s: State, t: Task, nop: Task)
    requires Reachable(s) && UsesOneOfSixteen(s, t) && nop.concurrency == 0 && nop.joinRequested && !nop.reduces
    ensures CanCall(s, nop) && !MayReturn(Call(s, nop))
  {
    UsedSquadCanBeDestroyed(s, nop);
    SecondCallHangs(s, t, nop);
  }

  lemma UsedSquadCanBeDestroyed(s: State, nop: Task)
    requires Reachable(s) && s.main == Ready && s.calls != []
    requires nop.concurrency == 0 && nop.joinRequested && !nop.reduces
    ensures CanCall(s, nop)
  {
    ReachableInOrder(s);
    hide Upwards, JoinsOnce;
  }

  // ---------- Sixty-five threads ----------

  lemma ReachesStep(s: State, e: Event)
    requires Reachable(s) && CanHappen(s, e)
    ensures Reachable(After(s, e))
  {
    hide CanHappen, After, Reachable;
    ReachesOn(s, [e]);
  }

  /** The first `k` threads have been forked. */
  ghost predicate HasForked(s: State, k: nat) {
    s.main == ForkStart(k) && k <= |s.th| && |s.th| >= 1 && (s.task.Some? ==> s.task.value < |s.calls|) &&
    forall v :: k <= v < |s.th| ==> s.th[v].handle == NotStarted && s.th[v].pc == Unborn
  }

  lemma {:induction false} ForkRest(s: State, k: nat) returns (s': State)
    requires Reachable(s) && HasForked(s, k)
    ensures Reachable(s') && |s'.th| == |s.th| >= 1 && s'.main == AwaitRoot && s'.task == s.task && s'.calls == s.calls
    ensures s'.th[0] == if k == 0 then s.th[0].(pc := Parked, handle := Started) else s.th[0]
    decreases |s.th| - k
  {
    hide Reachable;
    ReachesStep(s, OfMain);
    s' := MainStep(s);
    if k < |s.th| {
      ReachesStep(s', OfMain);
      s' := ForkRest(MainStep(s'), k + 1);
    }
  }

  lemma OneThreadHasNoTargets(n: nat)
    requires n >= 1
    ensures Up(n, 1, 0) == []
  {
    hide Up;
    WalkOrder(n, 1, 0);
    WithoutMembers(Up(n, 1, 0));
  }

  lemma WithoutMembers(s: seq<nat>)
    ensures s == [] || exists v :: v in s
  {
    assert s != [] ==> s[0] in s;
  }

  ghost predicate UsesOneThread(t: Task) {
    t.concurrency == 1 && t.rounds == 0 && !t.reduces && !t.joinRequested
  }

  /** A squad of any size can be used once, on one thread. */
  lemma UsedOnce(start: State, t: Task) returns (s: State)
    requires Initial(start) && UsesOneThread(t)
    ensures Reachable(s) && s.main == Ready && s.calls == [t] && |s.th| == |start.th|
  {
    s := ForkOne(start, t);
    s := RunOne(s, t);
  }

  /** Thread 0 of a squad that uses one thread only, at a program point of the call. */
  ghost predicate OneRuns(s: State, t: Task, pc: Pc) {
    Reachable(s) && |s.th| >= 1 && s.main == AwaitRoot && s.task == Some(0) && s.calls == [t] && UsesOneThread(t) &&
    var x := s.th[0];
    x.pc == pc && x.incoming && !x.outgoing && x.pass == 0 && x.slot == None && (pc != Parked ==> x.task == 0 && !x.joinRequested)
  }

  lemma ForkOne(start: State, t: Task) returns (s: State)
    requires Initial(start) && UsesOneThread(t)
    ensures OneRuns(s, t, Parked) && |s.th| == |start.th|
  {
    assert FreshThread(start.th[0]);
    InitialIsReachable(start);
    FreshSquadIsReady(start, t);
    ReachesStep(start, OfCaller(t));
    var s0 := Call(start, t);
    assert forall v :: 0 <= v < |start.th| ==> FreshThread(start.th[v]);
    hide Reachable;
    ReachesStep(s0, OfMain);
    var s1 := MainStep(s0);
    ReachesStep(s1, OfMain);
    s := ForkRest(MainStep(s1), 0);
  }

  lemma OneGoesOn(s: State, t: Task, pc: Pc, next: Pc) returns (s': State)
    requires OneRuns(s, t, pc)
    requires match pc
             case Parked => next == Notify([])
             case Notify(todo) => todo == [] && next == Execute(0)
             case Execute(r) => r == 0 && next == AwaitKids([])
             case AwaitKids(todo) => todo == [] && next == Signal
             case _ => false
    ensures OneRuns(s', t, next) && |s'.th| == |s.th|
  {
    hide Reachable, Up, Down;
    OneThreadHasNoTargets(|s.th|);
    ReachesStep(s, OfThread(0));
    s' := ThreadStep(s, 0);
  }

  lemma RunOne(s: State, t: Task) returns (s': State)
    requires OneRuns(s, t, Parked) && !t.joinRequested
    ensures Reachable(s') && s'.main == Ready && s'.calls == [t] && |s'.th| == |s.th|
  {
    hide OneRuns, Reachable;
    s' := OneGoesOn(s, t, Parked, Notify([]));
    s' := OneGoesOn(s', t, Notify([]), Execute(0));
    s' := OneGoesOn(s', t, Execute(0), AwaitKids([]));
    s' := OneGoesOn(s', t, AwaitKids([]), Signal);
    s' := OneSignals(s', t);
    s' := OneReturns(s', t);
  }

  lemma OneReturns(s: State, t: Task) returns (s': State)
    requires Reachable(s) && |s.th| >= 1 && s.main == AwaitRoot && s.task == Some(0) && s.calls == [t] && !t.joinRequested
    requires s.th[0].outgoing == s.th[0].incoming
    ensures Reachable(s') && s'.main == Ready && s'.calls == [t] && |s'.th| == |s.th|
  {
    hide Reachable;
    ReachesStep(s, OfMain);
    s' := MainStep(s);
    ReachesStep(s', OfMain);
    s' := MainStep(s');
  }

  lemma OneSignals(s: State, t: Task) returns (s': State)
    requires OneRuns(s, t, Signal)
    ensures Reachable(s') && |s'.th| == |s.th| >= 1 && s'.main == AwaitRoot && s'.task == Some(0) && s'.calls == [t]
    ensures s'.th[0].outgoing == s'.th[0].incoming
  {
    hide Reachable;
    ReachesStep(s, OfThread(0));
    s' := ThreadStep(s, 0);
  }

  /** A squad of sixty-five threads that has been used can never be destroyed. */
  lemma SixtyFiveStay(s: State, nop: Task)
    requires Reachable(s) && |s.th| == 65 && s.main == Ready && s.calls != []
    requires nop.concurrency == 0 && nop.joinRequested && !nop.reduces
    ensures CanCall(s, nop) && !MayReturn(Call(s, nop)) && !AlwaysReturns(Call(s, nop))
  {
    UsedSquadCanBeDestroyed(s, nop);
    ReachesCall(s, nop);
    CallEntry(s, nop);
    hide Reachable, NestedStrides, CanCall, CallReturns;
    ReturnsExactly(Call(s, nop));
  }

}
