/** When a call returns, and when no check fails on the way. */
module Termination {
  import opened Tree
  import opened TreeCover
  import opened Squad
  import opened History
  import opened Invariant
  import opened ThreadSafety
  import opened CallSafety
  import opened Outcome
  import opened Guarantees
  import opened Progress
  import opened Bounded
  import opened Ragged

  // ---------- Executions of one call ----------

  /** Every execution that cannot go on has returned from the call. */
  ghost predicate AlwaysReturns(s: State) {
    forall es :: IsExecution(s, es) && Stuck(Final(s, es)) ==> !Active(Final(s, es))
  }

  ghost predicate MayReturn(s: State) {
    exists es :: IsExecution(s, es) && !Active(Final(s, es))
  }

  lemma {:induction false} RunConcat(s: State, es: seq<Event>, fs: seq<Event>)
    requires IsRun(s, es) && IsRun(Final(s, es), fs)
    ensures IsRun(s, es + fs) && Final(s, es + fs) == Final(Final(s, es), fs)
    decreases |es|
  {
    hide CanHappen, After;
    if es == [] {
      assert es + fs == fs;
    } else {
      RunConcat(After(s, es[0]), es[1..], fs);
      assert (es + fs)[1..] == es[1..] + fs;
    }
  }

  /** What is reachable stays so. */
  lemma ReachesOn(s: State, es: seq<Event>)
    requires Reachable(s) && IsRun(s, es)
    ensures Reachable(Final(s, es))
  {
    hide IsRun, Final, Initial;
    var start, fs :| Initial(start) && IsRun(start, fs) && s == Final(start, fs);
    RunConcat(start, fs, es);
  }

  lemma ReachesCall(s: State, t: Task)
    requires Reachable(s) && CanCall(s, t)
    ensures Reachable(Call(s, t)) && Active(Call(s, t)) && |Call(s, t).th| == |s.th|
    ensures NestedStrides(|s.th|) ==> ActiveInv(Call(s, t))
  {
    hide NestedStrides;
    ReachesOn(s, [OfCaller(t)]);
    if NestedStrides(|s.th|) {
      ReachableSafe(s);
      CallSafe(s, t);
    }
  }

  lemma ReachableGoesUpwards(s: State)
    requires Reachable(s)
    ensures Upwards(s)
  {
    ReachableInOrder(s);
  }

  // ---------- A call that returns is one that was meant to ----------

  /** When the main thread is about to return, whoever should have been woken has been. */
  lemma {:induction false} ReleasedIsLive(s: State, v: nat)
    requires Returning(s) && v < |s.th| && v < WakeCount(|s.th|, CtxOf(s).t)
    requires var t := CtxOf(s).t; t.joinRequested || t.rounds > 0 || t.reduces
    ensures PlanAt(s, v).live
    decreases v
  {
    var x, k := CtxOf(s), PlanAt(s, v);
    if v > 0 {
      var p := Parent(|s.th|, v);
      ReleasedIsLive(s, p);
      AllCompleted(s, p);
      AllCompleted(s, v);
      assert EdgeAt(s, v) && LocalAt(s, v) && LocalAt(s, p);
      if x.t.joinRequested {
        AllJoined(s, v);
      }
      hide Local, Edge, Inv, PlanOf;
    }
  }

  lemma ReleasedIsMerged(s: State, v: nat)
    requires Returning(s) && 0 < v < |s.th| && v < WakeCount(|s.th|, CtxOf(s).t) && CtxOf(s).t.reduces
    ensures v < CtxOf(s).t.concurrency
  {
    var p := Parent(|s.th|, v);
    ReleasedIsLive(s, p);
    AllCompleted(s, p);
    assert EdgeAt(s, v) && LocalAt(s, p);
    hide Stage, PlanOf;
  }

  lemma ReleasingReturns(s: State)
    requires Returning(s)
    ensures s.calls != [] && CallReturns(|s.th|, s.calls)
  {
    var n, t := |s.th|, CtxOf(s).t;
    var w := WakeCount(n, t);
    if t.joinRequested || t.rounds > 0 || t.reduces {
      forall v: nat | v < n && v < w ensures Live(n, s.calls, v) {
        ReleasedIsLive(s, v);
      }
    }
    if t.reduces {
      assert CallOk(n, s.calls[|s.calls| - 1]);
      if t.concurrency < w {
        ReleasedIsMerged(s, t.concurrency);
        assert false;
      }
    }
  }

  /** The last step of a call is the main thread's. */
  lemma LastStep(s: State, e: Event)
    requires ActiveInv(s) && OfSquad(e) && CanHappen(s, e) && !Active(After(s, e))
    ensures e == OfMain && Returning(s) && s.calls != []
    ensures After(s, e).main == if Current(s.calls).joinRequested then Gone else Ready
  {
    CallFacts(s);
    hide Inv, Own, Hit, Enabled;
  }

  lemma StepKeepsCall(s: State, e: Event)
    requires Inv(s) && OfSquad(e) && CanHappen(s, e)
    ensures Inv(After(s, e)) && |After(s, e).th| == |s.th| && After(s, e).calls == s.calls
  {
    hide Inv, CanHappen, After;
    StepSafe(s, e);
    StepKeepsCalls(s, e);
  }

  lemma OnlyActiveSquadsStep(s: State, e: Event)
    requires Inv(s) && OfSquad(e) && CanHappen(s, e)
    ensures Active(s)
  {
    if !Active(s) && e.OfThread? {
      RestingThreadsWait(s, e.i);
    }
  }

  lemma {:induction false} OnlySuchCallsReturn(s: State, es: seq<Event>)
    requires ActiveInv(s) && IsExecution(s, es) && !Active(Final(s, es))
    ensures s.calls != [] && CallReturns(|s.th|, s.calls)
    ensures Final(s, es).calls == s.calls && |Final(s, es).th| == |s.th| && Inv(Final(s, es))
    ensures Final(s, es).main == if Current(s.calls).joinRequested then Gone else Ready
    decreases |es|
  {
    hide Inv, Returning, CallReturns, CanHappen, After;
    assert es != [];
    StepKeepsCall(s, es[0]);
    var s', fs := After(s, es[0]), es[1..];
    assert IsExecution(s', fs);
    if Active(s') {
      OnlySuchCallsReturn(s', fs);
    } else {
      LastStep(s, es[0]);
      ReleasingReturns(s);
      if fs != [] {
        assert fs[0] in fs;
        OnlyActiveSquadsStep(s', fs[0]);
        assert false;
      }
    }
  }

  // ---------- Exactly the calls that return ----------

  /** No execution of any call goes on for ever, in a squad of any size. */
  lemma ExecutionsAreBounded(s: State, es: seq<Event>)
    requires Reachable(s) && IsExecution(s, es)
    ensures |es| <= Measure(s)
  {
    hide Measure, Upwards;
    ReachableGoesUpwards(s);
    StepsAreBounded(s, es);
  }

  /** A joining call in a squad whose strides are not nested is never through with joining. */
  lemma RaggedStaysActive(s: State, es: seq<Event>)
    requires Reachable(s) && Active(s) && !NestedStrides(|s.th|) && s.calls != [] && Current(s.calls).joinRequested
    requires IsExecution(s, es)
    ensures Active(Final(s, es))
  {
    var s' := Final(s, es);
    hide NestedStrides, Reachable, IsRun, Final, CanHappen;
    ReachesOn(s, es);
    RunKeepsSize(s, es);
    ExecutionKeepsCalls(s, es);
    RaggedNeverJoins(s');
    ReachableInOrder(s');
    ReadyHasNotJoined(s');
  }

  lemma ReadyHasNotJoined(s: State)
    requires InOrder(s)
    ensures s.main == Ready ==> !LastJoins(s)
  {
    hide Upwards, JoinsOnce;
  }

  lemma {:induction false} ExecutionKeepsCalls(s: State, es: seq<Event>)
    requires IsExecution(s, es)
    ensures Final(s, es).calls == s.calls
    decreases |es|
  {
    hide CanHappen, After;
    if es != [] {
      StepKeepsCalls(s, es[0]);
      assert IsExecution(After(s, es[0]), es[1..]);
      ExecutionKeepsCalls(After(s, es[0]), es[1..]);
    }
  }

  lemma StepKeepsCalls(s: State, e: Event)
    requires OfSquad(e) && CanHappen(s, e)
    ensures After(s, e).calls == s.calls
  {
    hide Own, Hit, Enabled, NumThreadsForTask;
  }

  lemma ActiveHasCalls(s: State)
    requires Reachable(s) && Active(s)
    ensures s.calls != []
  {
    ReachableInOrder(s);
    hide Upwards, JoinsOnce;
  }

  /** A call returns from every execution exactly if it returns from some, and exactly if the strides are nested and
      `CallReturns` says so. This holds for joining calls in squads of any size, and for all calls if the strides are nested. */
  lemma ReturnsExactly(s: State)
    requires Reachable(s) && Active(s)
    requires NestedStrides(|s.th|) || (s.calls != [] && Current(s.calls).joinRequested)
    ensures s.calls != []
    ensures AlwaysReturns(s) <==> NestedStrides(|s.th|) && CallReturns(|s.th|, s.calls)
    ensures MayReturn(s) <==> NestedStrides(|s.th|) && CallReturns(|s.th|, s.calls)
  {
    ActiveHasCalls(s);
    hide Inv, CallReturns, CanHappen, NestedStrides, Upwards, Reachable, IsRun;
    ReachableGoesUpwards(s);
    var es := MaximalExecution(s);
    if NestedStrides(|s.th|) {
      ReachableSafe(s);
      NestedReturnsExactly(s, es);
    } else {
      forall fs | IsExecution(s, fs) ensures Active(Final(s, fs)) {
        RaggedStaysActive(s, fs);
      }
    }
  }

  lemma NestedReturnsExactly(s: State, es: seq<Event>)
    requires ActiveInv(s) && s.calls != [] && IsExecution(s, es) && Stuck(Final(s, es))
    ensures AlwaysReturns(s) <==> CallReturns(|s.th|, s.calls)
    ensures MayReturn(s) <==> CallReturns(|s.th|, s.calls)
  {
    hide Inv, CallReturns, CanHappen, IsRun;
    if MayReturn(s) {
      var fs :| IsExecution(s, fs) && !Active(Final(s, fs));
      OnlySuchCallsReturn(s, fs);
    }
    if CallReturns(|s.th|, s.calls) {
      forall fs | IsExecution(s, fs) && Stuck(Final(s, fs)) ensures !Active(Final(s, fs)) {
        StuckHasReturned(s, fs);
      }
    }
  }

  lemma StuckHasReturned(s: State, es: seq<Event>)
    requires Inv(s) && s.calls != [] && CallReturns(|s.th|, s.calls) && IsExecution(s, es) && Stuck(Final(s, es))
    ensures !Active(Final(s, es))
  {
    hide CallReturns, IsRun, Inv, Final;
    ExecutionKeepsCalls(s, es);
    RunKeepsInvariant(s, es);
    if Active(Final(s, es)) {
      var e := SomeStepIsEnabled(Final(s, es));
    }
  }

  /** While a call that returns is in progress, some step is enabled. */
  lemma NoDeadlock(s: State)
    requires Reachable(s) && NestedStrides(|s.th|) && Active(s) && s.calls != [] && CallReturns(|s.th|, s.calls)
    ensures exists e :: OfSquad(e) && CanHappen(s, e)
  {
    ReachableSafe(s);
    hide Inv;
    var e := SomeStepIsEnabled(s);
  }

  /** Under a wake-safe history all calls return, but for reductions that destroy the squad without using all of it. */
  lemma WakeSafeCallsReturn(n: nat, calls: seq<Task>)
    requires NestedStrides(n) && WakeSafe(n, calls) && calls != []
    requires forall i :: 0 <= i < |calls| ==> WakeCount(n, calls[i]) <= n
    ensures CallReturns(n, calls) <==> (Current(calls).reduces ==> Current(calls).concurrency == WakeCount(n, Current(calls)))
  {
    WakeSafeIsAllLive(n, calls);
    forall v: nat | v < n && v < WakeCount(n, Current(calls)) ensures Live(n, calls, v) {
      assert LiveIn(n, calls, |calls| - 1, v);
      assert calls[..|calls|] == calls;
    }
  }

  // ---------- Exactly the calls on which no check fails ----------

  ghost predicate NothingFails(s: State) {
    !MainFails(s) && forall i: nat :: i < |s.th| ==> !Fails(s, i)
  }

  /** Every execution returns, and on the way no assertion, dereference or access to an optional value fails. */
  ghost predicate Flawless(s: State) {
    AlwaysReturns(s) && forall es :: IsExecution(s, es) ==> NothingFails(Final(s, es))
  }

  /** A first call that also joins, on more than one thread. */
  ghost predicate ForksAndJoins(n: nat, calls: seq<Task>)
    requires calls != []
  {
    |calls| == 1 && Current(calls).joinRequested && n >= 2
  }

  ghost predicate JoinMayFail(s: State) {
    exists es, i: nat :: IsExecution(s, es) && i < |Final(s, es).th| && JoinsUnrecorded(Final(s, es), i)
  }

  lemma RestingNothingFails(s: State)
    requires Inv(s) && !Active(s)
    ensures NothingFails(s)
  {
    forall i: nat | i < |s.th| ensures !Fails(s, i) {
      RestingThread(s, i);
      hide Inv;
    }
  }

  lemma ActiveNothingFails(s: State)
    requires ActiveInv(s) && Mergeable(|s.th|, s.calls) && !ForksAndJoins(|s.th|, s.calls)
    ensures NothingFails(s)
  {
    MainChecksHold(s);
    hide Inv, Fails;
    forall i: nat | i < |s.th| ensures !Fails(s, i) {
      ChecksHold(s, i);
      if JoinsUnrecorded(s, i) {
        JoinTargetRuns(s, i);
      }
    }
  }

  /** No check of a thread fails, but for the join of a thread whose handle is not stored yet. */
  lemma OnlyJoinsFail(s: State, i: nat)
    requires Reachable(s) && NestedStrides(|s.th|) && Active(s) && i < |s.th| && s.calls != [] && Mergeable(|s.th|, s.calls)
    ensures !MainFails(s)
    ensures Fails(s, i) <==> JoinsUnrecorded(s, i)
  {
    ReachableSafe(s);
    MainChecksHold(s);
    hide Inv;
    ChecksHold(s, i);
    if JoinsUnrecorded(s, i) {
      JoinTargetRuns(s, i);
    }
  }

  /** The main thread forks up to, but not including, the last handle. */
  lemma {:induction false} ForkAllButLast(s: State) returns (es: seq<Event>)
    requires ActiveInv(s) && Upwards(s) && |s.th| >= 2
    requires s.main.ForkWake? || s.main.ForkStart? || s.main.ForkRecord?
    requires s.main.ForkStart? ==> s.main.k < |s.th|
    ensures IsExecution(s, es) && Final(s, es).calls == s.calls && |Final(s, es).th| == |s.th|
    ensures ActiveInv(Final(s, es)) && Upwards(Final(s, es)) && Final(s, es).main == ForkRecord(|s.th| - 1)
    decreases Measure(s)
  {
    es := [];
    if s.main != ForkRecord(|s.th| - 1) {
      MainMovesOtherwise(s);
      ForkStep(s);
      SquadStepCounts(s, OfMain);
      hide Inv, MainEnabled, MainStep, Measure, Upwards;
      var fs := ForkAllButLast(MainStep(s));
      es := [OfMain] + fs;
      assert es[1..] == fs;
    }
  }

  lemma ForkStep(s: State)
    requires ActiveInv(s) && MainEnabled(s) && (s.main.ForkWake? || s.main.ForkStart? || s.main.ForkRecord?)
    requires s.main.ForkStart? ==> s.main.k < |s.th|
    requires s.main != ForkRecord(|s.th| - 1)
    ensures ActiveInv(MainStep(s)) && MainStep(s).calls == s.calls && |MainStep(s).th| == |s.th|
    ensures var m := MainStep(s).main; (m.ForkWake? || m.ForkStart? || m.ForkRecord?) && (m.ForkStart? ==> m.k < |s.th|)
  {
    MainStepSafe(s);
    hide Inv, WakeCount;
  }

  /** The squad goes on alone until none of its threads can. */
  lemma {:induction false} SquadAlone(s: State) returns (es: seq<Event>)
    requires ActiveInv(s) && Upwards(s)
    ensures IsExecution(s, es) && Final(s, es).calls == s.calls && |Final(s, es).th| == |s.th|
    ensures ActiveInv(Final(s, es)) && Final(s, es).main == s.main
    ensures forall i: nat :: i < |s.th| ==> !Enabled(Final(s, es), i)
    decreases Measure(s)
  {
    hide Inv, Measure, Enabled, ThreadStep, Upwards;
    es := [];
    if exists i: nat :: i < |s.th| && Enabled(s, i) {
      var i: nat :| i < |s.th| && Enabled(s, i);
      SquadStepCounts(s, OfThread(i));
      ThreadStepSafe(s, i);
      ThreadStepKeepsMain(s, i);
      var fs := SquadAlone(ThreadStep(s, i));
      es := [OfThread(i)] + fs;
      assert es[1..] == fs;
    }
  }

  lemma ThreadStepKeepsMain(s: State, i: nat)
    requires i < |s.th| && Enabled(s, i)
    ensures ThreadStep(s, i).main == s.main
  {
    hide Own, Hit, Enabled, Target;
  }

  /** With the last handle missing, thread 0 cannot have come to the end. */
  lemma RootIsMoving(s: State)
    requires ActiveInv(s) && |s.th| >= 2 && s.main == ForkRecord(|s.th| - 1)
    requires CtxOf(s).t.joinRequested
    ensures Moving(PlanAt(s, 0), s.th[0]) && AllBorn(s)
  {
    var last := |s.th| - 1;
    forall v: nat | v < |s.th| ensures s.th[v].pc != Unborn {
      assert LocalAt(s, v);
    }
    assert LocalAt(s, 0) && LocalAt(s, last);
    if s.th[0].pc == Exited {
      ExitedBelow(s, last);
      assert false;
    }
    CallFacts(s);
    hide Edge, Inv, PlanOf;
  }

  /** Let all threads be created and run, but do not store the last handle: some check then fails. */
  lemma ForkingJoinFails(s: State) returns (es: seq<Event>, i: nat)
    requires ActiveInv(s) && Upwards(s) && s.main == ForkWake(0) && s.calls != []
    requires CallReturns(|s.th|, s.calls) && ForksAndJoins(|s.th|, s.calls)
    ensures IsExecution(s, es) && i < |Final(s, es).th| && JoinsUnrecorded(Final(s, es), i) && Fails(Final(s, es), i)
  {
    hide Inv, IsRun, Final, Enabled, Waitable, Mergeable, Fails, Blocked, Upwards, Measure;
    var fs := ForkAllButLast(s);
    var s' := Final(s, fs);
    var gs := SquadAlone(s');
    var s'' := Final(s', gs);
    RunConcat(s, fs, gs);
    es := fs + gs;
    RootIsMoving(s'');
    i := FindMover(s'', 0);
    FailsIfNot(s'', i);
    ChecksHold(s'', i);
  }

  lemma FailsIfNot(s: State, i: nat)
    requires i < |s.th| && !Enabled(s, i) && !Blocked(s, i)
    ensures Fails(s, i)
  {
  }

  /** In a first call every thread below the wake count is woken. */
  lemma FirstCallReturns(n: nat, t: Task)
    requires n >= 1
    ensures CallReturns(n, [t]) <==> (t.reduces ==> t.concurrency == WakeCount(n, t))
    ensures AllWoken(n, [t])
  {
  }

  lemma CallEntry(s: State, t: Task)
    requires Reachable(s) && CanCall(s, t)
    ensures Call(s, t).calls == s.calls + [t] && |Call(s, t).th| == |s.th|
    ensures s.calls == [] ==> Call(s, t).main == ForkWake(0)
    ensures |Call(s, t).calls| == 1 ==> s.calls == []
  {
    ReachableInOrder(s);
    hide Upwards, JoinsOnce;
  }

  /** The handle that `join` looks for can be missing only in a first call that also joins, on more than one thread; if the
      strides are nested and results are merged only by all threads, it can be missing in each such call. */
  lemma JoinFailsExactly(s: State, t: Task)
    requires Reachable(s) && CanCall(s, t)
    ensures JoinMayFail(Call(s, t)) ==> s.calls == [] && t.joinRequested && |s.th| >= 2
    ensures NestedStrides(|s.th|) && (t.reduces && t.joinRequested ==> t.concurrency == |s.th|) ==>
              (JoinMayFail(Call(s, t)) <==> s.calls == [] && t.joinRequested && |s.th| >= 2)
  {
    var s0 := Call(s, t);
    ReachesCall(s, t);
    CallEntry(s, t);
    ReachableGoesUpwards(s0);
    hide Inv, Upwards, NestedStrides, Reachable, CanCall;
    if JoinMayFail(s0) {
      var es, i: nat :| IsExecution(s0, es) && i < |Final(s0, es).th| && JoinsUnrecorded(Final(s0, es), i);
      ExecutionKeepsCalls(s0, es);
      RunKeepsSize(s0, es);
      ReachesOn(s0, es);
      UnstoredIsJoinedInFirstCall(Final(s0, es), i);
    }
    if NestedStrides(|s.th|) && (t.reduces && t.joinRequested ==> t.concurrency == |s.th|) && s.calls == [] && t.joinRequested && |s.th| >= 2 {
      assert s0.calls == [t];
      FirstCallReturns(|s.th|, t);
      var es, i := ForkingJoinFails(s0);
    }
  }

  lemma ExecutionKeeps(s: State, es: seq<Event>)
    requires ActiveInv(s) && IsExecution(s, es)
    ensures Final(s, es).calls == s.calls != [] && |Final(s, es).th| == |s.th| && Inv(Final(s, es))
  {
    CallFacts(s);
    ExecutionKeepsCalls(s, es);
    RunKeepsInvariant(s, es);
  }

  /** A call is flawless exactly if the strides are nested, it returns, and it does not both fork and join more than one thread.
      This holds for joining calls in squads of any size, and for all calls if the strides are nested. */
  lemma FlawlessExactly(s: State, t: Task)
    requires Reachable(s) && CanCall(s, t) && (NestedStrides(|s.th|) || t.joinRequested)
    ensures Flawless(Call(s, t)) <==>
            NestedStrides(|s.th|) && CallReturns(|s.th|, s.calls + [t]) &&
            !(s.calls == [] && t.joinRequested && |s.th| >= 2)
  {
    var s0 := Call(s, t);
    ReachesCall(s, t);
    CallEntry(s, t);
    ReachableGoesUpwards(s0);
    hide Inv, CallReturns, Fails, MainFails, NestedStrides, Upwards, Reachable, CanCall;
    ReturnsExactly(s0);
    if NestedStrides(|s0.th|) && CallReturns(|s0.th|, s0.calls) {
      if ForksAndJoins(|s0.th|, s0.calls) {
        var es, i := ForkingJoinFails(s0);
        assert !NothingFails(Final(s0, es));
      } else {
        forall es | IsExecution(s0, es) ensures NothingFails(Final(s0, es)) {
          NothingFailsAfter(s0, es);
        }
      }
    }
  }

  lemma NothingFailsAfter(s: State, es: seq<Event>)
    requires ActiveInv(s) && IsExecution(s, es) && CallReturns(|s.th|, s.calls) && !ForksAndJoins(|s.th|, s.calls)
    ensures NothingFails(Final(s, es))
  {
    ExecutionKeeps(s, es);
    hide Inv, NothingFails, Final, IsRun, Waitable;
    if Active(Final(s, es)) {
      ActiveNothingFails(Final(s, es));
    } else {
      RestingNothingFails(Final(s, es));
    }
  }
}
