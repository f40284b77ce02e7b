/** The beginning and the end of a call keep the invariant; hence every reachable state satisfies it. */
module CallSafety {
  import opened Basics
  import opened Tree
  import opened TreeCover
  import opened Squad
  import opened History
  import opened Invariant
  import opened ThreadSteps
  import opened ThreadSafety
  import opened MainSafety

  // ---------- Entering `run` ----------

  lemma CallRest(s: State, t: Task, v: nat)
    requires Inv(s) && CanCall(s, t) && v < |s.th|
    ensures var y, s' := s.th[v], Call(s, t); var k := PlanAt(s', v);
            Common(y) && (y.pc == Parked || y.pc == Unborn) && y.woken == y.completed == k.wakes &&
            y.arrived == y.released == k.syncs && y.ran == k.ran && !y.published &&
            (if s.calls == [] then y.pc == Unborn && k.wakes == 0 else y.handle == Started)
  {
    assert RestAt(s, v);
    assert Earlier(s.calls + [t]) == s.calls;
  }

  lemma RunningMeansCalled(s: State)
    requires Inv(s) && s.main == Ready
    ensures IsRunning(s.th[0]) <==> s.calls != []
  {
    assert RestAt(s, 0);
  }

  lemma CallSafe(s: State, t: Task)
    requires Inv(s) && CanCall(s, t)
    ensures ActiveInv(Call(s, t))
  {
    hide LocalAt, EdgeAt, RootEdge, PlanOf, RestAt, CanCall, Live, CtxOf, MainOk;
    var s' := Call(s, t);
    var n := |s.th|;
    CallMain(s, t);
    forall v: nat | v < n ensures LocalAt(s', v) {
      CallLocalAt(s, t, v);
    }
    forall v: nat | 0 < v < n ensures EdgeAt(s', v) {
      CallEdgeAt(s, t, v);
    }
  }

  lemma CallMain(s: State, t: Task)
    requires Inv(s) && CanCall(s, t)
    ensures var s' := Call(s, t);
            Active(s') && MainOk(s') && CallOk(|s.th|, t) && RootEdge(CtxOf(s'), s'.main, PlanAt(s', 0), s'.th[0])
  {
    var s' := Call(s, t);
    RunningMeansCalled(s);
    assert WakeCount(|s.th|, t) >= 1;
    assert Live(|s.th|, s'.calls, 0);
    CallRest(s, t, 0);
    hide RootEdge, PlanOf, RestAt, Common;
  }

  lemma CallLocalAt(s: State, t: Task, v: nat)
    requires Inv(s) && CanCall(s, t) && v < |s.th|
    ensures LocalAt(Call(s, t), v)
  {
    var s' := Call(s, t);
    RunningMeansCalled(s);
    CallRest(s, t, v);
    hide Local, PlanOf, RestAt, Inv;
  }

  lemma CallEdgeAt(s: State, t: Task, v: nat)
    requires Inv(s) && CanCall(s, t) && 0 < v < |s.th|
    ensures EdgeAt(Call(s, t), v)
  {
    var s', n := Call(s, t), |s.th|;
    var p := Parent(n, v);
    CallRest(s, t, v);
    CallRest(s, t, p);
    assert s'.th[v].handle != Joined && (|s'.calls| == 1 ==> PlanAt(s', v).wakes == 0);
    hide Edge;
  }

  // ---------- Returning from `run` ----------

  ghost predicate Returning(s: State) {
    ActiveInv(s) && s.main == Release
  }

  /** When thread 0 has completed, every thread that the call woke has. */
  lemma {:induction false} AllCompleted(s: State, v: nat)
    requires ActiveInv(s) && v < |s.th| && (s.main == JoinRoot || s.main == Release)
    ensures s.th[v].completed == PlanAt(s, v).wakes + (if PlanAt(s, v).live then 1 else 0)
    decreases v
  {
    var x := CtxOf(s);
    assert LocalAt(s, v);
    hide Local, Edge, PlanOf;
    if v > 0 {
      var p := Parent(|s.th|, v);
      AllCompleted(s, p);
      assert EdgeAt(s, v) && LocalAt(s, p);
      if !PlanAt(s, v).live {
        NotLiveIsIdle(x, PlanAt(s, v), v, s.th[v]);
      }
    }
  }

  /** When a joining call is about to return, every thread has been joined. */
  lemma {:induction false} AllJoined(s: State, v: nat)
    requires Returning(s) && v < |s.th| && CtxOf(s).t.joinRequested
    ensures s.th[v].handle == Joined && s.th[v].pc == Exited
    decreases v
  {
    assert LocalAt(s, v);
    hide Stage;
    if v > 0 {
      AllJoined(s, Parent(|s.th|, v));
      assert EdgeAt(s, v);
    }
  }

  lemma CompletedRests(x: Ctx, k: Plan, v: nat, y: Thread)
    requires Local(x, k, v, y) && y.handle != NotStarted
    requires y.completed == k.wakes + (if k.live then 1 else 0)
    requires x.t.joinRequested ==> y.pc == Exited
    ensures y.pc == if x.t.joinRequested then Exited else Parked
    ensures x.t.joinRequested ==> k.live
    ensures Common(y) && y.woken == y.completed && !y.published
    ensures if k.live then HasRun(x, k, v, y) else y.arrived == y.released == k.syncs && y.ran == k.ran
  {
  }

  lemma ReturnRests(s: State, v: nat)
    requires Returning(s) && v < |s.th|
    ensures RestAt(MainStep(s), v)
  {
    var x, k, y := CtxOf(s), PlanAt(s, v), s.th[v];
    assert LocalAt(s, v);
    AllCompleted(s, v);
    if x.t.joinRequested {
      AllJoined(s, v);
    }
    CompletedRests(x, k, v, y);
    ReturnNotJoined(s, v);
    hide Local, Inv;
  }

  lemma ReturnNotJoined(s: State, v: nat)
    requires Returning(s) && v < |s.th|
    ensures s.calls != [] && s.task == Some(|s.calls| - 1) && s.th[v].handle != NotStarted
    ensures s.th[v].handle == Joined ==> s.th[v].pc == Exited
  {
    assert LocalAt(s, v);
    hide Stage;
  }

  lemma ReleaseSafe(s: State)
    requires Returning(s) && MainEnabled(s)
    ensures Inv(MainStep(s))
  {
    var s' := MainStep(s);
    forall v: nat | v < |s.th| ensures RestAt(s', v) {
      ReturnRests(s, v);
    }
  }

  // ---------- Between calls ----------

  lemma RestingThreadsWait(s: State, i: nat)
    requires Inv(s) && !Active(s) && i < |s.th|
    ensures !Enabled(s, i)
  {
    assert RestAt(s, i);
  }

  lemma DropSafe(s: State)
    requires Inv(s) && CanDrop(s)
    ensures Inv(s.(main := Gone)) && s.calls == []
  {
    RunningMeansCalled(s);
    var s' := s.(main := Gone);
    forall v: nat | v < |s.th| ensures RestAt(s', v) {
      assert RestAt(s, v);
    }
  }

  // ---------- Runs ----------

  lemma MainStepSafe(s: State)
    requires Inv(s) && MainEnabled(s)
    ensures Inv(MainStep(s)) && |MainStep(s).th| == |s.th|
  {
    match s.main
    case ForkWake(k) =>
      if k < NumThreadsForTask(s) {
        ForkWakeSafe(s, k);
      } else {
        ForkWakeDoneSafe(s, k);
      }
    case ForkStart(k) =>
      if k < |s.th| {
        ForkStartSafe(s, k);
      } else {
        ForkDoneSafe(s, k);
      }
    case ForkRecord(k) => ForkRecordSafe(s, k);
    case NotifyRoot => NotifyRootSafe(s);
    case AwaitRoot => AwaitRootSafe(s);
    case JoinRoot => JoinRootSafe(s);
    case Release => ReleaseSafe(s);
  }

  lemma StepSafe(s: State, e: Event)
    requires Inv(s) && CanHappen(s, e)
    ensures Inv(After(s, e)) && |After(s, e).th| == |s.th|
  {
    hide Inv, Enabled, MainEnabled, Own, Hit;
    match e
    case OfThread(i) =>
      if !Active(s) {
        RestingThreadsWait(s, i);
      }
      ThreadStepSafe(s, i);
    case OfMain => MainStepSafe(s);
    case OfCaller(t) => CallSafe(s, t);
    case Drop => DropSafe(s);
  }

  lemma InitialSafe(s: State)
    requires Initial(s) && NestedStrides(|s.th|)
    ensures Inv(s)
  {
    assert forall v: nat :: v < |s.th| ==> RestAt(s, v);
  }

  /** The invariant holds throughout every run: any sequence of calls, any interleaving. */
  lemma {:induction false} RunKeepsInvariant(s: State, es: seq<Event>)
    requires Inv(s) && IsRun(s, es)
    ensures Inv(Final(s, es)) && |Final(s, es).th| == |s.th|
    decreases |es|
  {
    if es != [] {
      StepSafe(s, es[0]);
      RunKeepsInvariant(After(s, es[0]), es[1..]);
    }
  }

  lemma StepKeepsSize(s: State, e: Event)
    requires CanHappen(s, e)
    ensures |After(s, e).th| == |s.th|
  {
    hide Own, Hit, Enabled;
  }

  lemma {:induction false} RunKeepsSize(s: State, es: seq<Event>)
    requires IsRun(s, es)
    ensures |Final(s, es).th| == |s.th|
    decreases |es|
  {
    hide CanHappen, After;
    if es != [] {
      StepKeepsSize(s, es[0]);
      RunKeepsSize(After(s, es[0]), es[1..]);
    }
  }

  lemma ReachableSafe(s: State)
    requires Reachable(s) && NestedStrides(|s.th|)
    ensures Inv(s)
  {
    hide Inv, NestedStrides;
    var start, es :| Initial(start) && IsRun(start, es) && s == Final(start, es);
    RunKeepsSize(start, es);
    InitialSafe(start);
    RunKeepsInvariant(start, es);
  }
}
