/** What holds in every reachable state: the barrier, the reductions, the lifetime of tasks, joining. */
module Guarantees {
  import opened Basics
  import opened Tree
  import opened TreeCover
  import opened Squad
  import opened History
  import opened Invariant
  import opened ThreadSteps
  import opened ThreadSafety
  import opened CallSafety

  // ---------- One-bit senses ----------

  /** The pass counter stops at the greatest `int`, and is the number of completed calls until then. */
  lemma PassIsClamped(s: State, i: nat)
    requires Reachable(s) && NestedStrides(|s.th|) && i < |s.th|
    ensures s.th[i].pass == if s.th[i].completed < 0x7FFF_FFFF then s.th[i].completed else 0x7FFF_FFFF
  {
    ReachableSafe(s);
    if Active(s) {
      assert LocalAt(s, i);
    } else {
      assert RestAt(s, i);
    }
  }

  /** Each flag is the parity of a counter that runs at most one ahead of its counterpart, so a waiter never misses a
      toggle and no flag is toggled twice before its waiter has seen the first toggle. */
  lemma SensesAreCounters(s: State, i: nat)
    requires Reachable(s) && NestedStrides(|s.th|) && i < |s.th|
    ensures SensesMatch(s.th[i])
  {
    ReachableSafe(s);
    if Active(s) {
      assert LocalAt(s, i);
    } else {
      assert RestAt(s, i);
    }
  }

  // ---------- The barrier ----------

  /** How many `synchronize` calls of the current task a thread has entered. */
  ghost function Entered(t: Task, k: Plan, y: Thread): nat {
    match y.pc
    case Unborn => 0
    case Parked => if Done(k, y) then t.rounds else 0
    case Notify(_) => 0
    case Execute(r) => r
    case Collect(r, _) => r + 1
    case Take(r, _) => r + 1
    case Publish(r) => r + 1
    case Raise(r) => r + 1
    case Await(r) => r + 1
    case Retract(r) => r + 1
    case Give(r, _) => r + 1
    case Lower(r, _) => r + 1
    case _ => t.rounds
  }

  /** How many of them it has left. */
  ghost function Left(t: Task, k: Plan, y: Thread): nat {
    match y.pc
    case Unborn => 0
    case Parked => if Done(k, y) then t.rounds else 0
    case Notify(_) => 0
    case Execute(r) => r
    case Collect(r, _) => r
    case Take(r, _) => r
    case Publish(r) => r
    case Raise(r) => r
    case Await(r) => r
    case Retract(r) => r
    case Give(r, _) => r
    case Lower(r, _) => r
    case _ => t.rounds
  }

  /** In how many rounds it knows that its whole subtree has arrived. */
  ghost function Gathered(t: Task, k: Plan, y: Thread): nat {
    match y.pc
    case Collect(r, _) => r
    case Take(r, _) => r
    case _ => Entered(t, k, y)
  }

  /** From how many rounds it has been released. */
  ghost function Passed(t: Task, k: Plan, y: Thread): nat {
    match y.pc
    case Retract(r) => r + 1
    case Give(r, _) => r + 1
    case Lower(r, _) => r + 1
    case _ => Left(t, k, y)
  }

  lemma PassedIsReleased(x: Ctx, k: Plan, v: nat, y: Thread)
    requires Local(x, k, v, y) && 0 < v < x.t.concurrency
    ensures k.syncs + Passed(x.t, k, y) <= y.released
    ensures y.arrived <= k.syncs + Gathered(x.t, k, y)
    ensures Passed(x.t, k, y) > 0 ==> k.live
  {
  }

  lemma PassedUp(x: Ctx, kp: Plan, p: nat, y: Thread, kc: Plan, v: nat, child: Thread)
    requires Local(x, kp, p, y) && Local(x, kc, v, child) && Edge(x, kp, y, kc, v, child) && 0 < v < x.t.concurrency
    ensures Passed(x.t, kc, child) <= Passed(x.t, kp, y)
  {
    PassedIsReleased(x, kc, v, child);
    hide Stage;
  }

  lemma GatheredDown(x: Ctx, kp: Plan, p: nat, y: Thread, kc: Plan, v: nat, child: Thread)
    requires Local(x, kp, p, y) && Local(x, kc, v, child) && Edge(x, kp, y, kc, v, child) && 0 < v < x.t.concurrency
    ensures Gathered(x.t, kp, y) <= Gathered(x.t, kc, child)
  {
    PassedIsReleased(x, kc, v, child);
    if !kp.live {
      NotLiveIsIdle(x, kp, p, y);
    }
    hide Stage;
  }

  lemma {:induction false} PassedByRoot(s: State, v: nat)
    requires ActiveInv(s) && v < |s.th| && v < CtxOf(s).t.concurrency
    ensures Passed(CtxOf(s).t, PlanAt(s, v), s.th[v]) <= Passed(CtxOf(s).t, PlanAt(s, 0), s.th[0])
    decreases v
  {
    hide Local, Edge, PlanOf, Passed;
    if v > 0 {
      var p := Parent(|s.th|, v);
      PassedByRoot(s, p);
      assert EdgeAt(s, v) && LocalAt(s, v) && LocalAt(s, p);
      PassedUp(CtxOf(s), PlanAt(s, p), p, s.th[p], PlanAt(s, v), v, s.th[v]);
    }
  }

  lemma {:induction false} GatheredByAll(s: State, v: nat)
    requires ActiveInv(s) && v < |s.th| && v < CtxOf(s).t.concurrency
    ensures Gathered(CtxOf(s).t, PlanAt(s, 0), s.th[0]) <= Gathered(CtxOf(s).t, PlanAt(s, v), s.th[v])
    decreases v
  {
    hide Local, Edge, PlanOf, Gathered;
    if v > 0 {
      var p := Parent(|s.th|, v);
      GatheredByAll(s, p);
      assert EdgeAt(s, v) && LocalAt(s, v) && LocalAt(s, p);
      GatheredDown(CtxOf(s), PlanAt(s, p), p, s.th[p], PlanAt(s, v), v, s.th[v]);
    }
  }

  /** No thread leaves its r-th synchronization before every thread that takes part has entered its r-th. */
  lemma BarrierSafety(s: State, u: nat, v: nat)
    requires Reachable(s) && NestedStrides(|s.th|) && Active(s) && s.calls != [] && u < |s.th| && v < |s.th|
    requires u < Current(s.calls).concurrency && v < Current(s.calls).concurrency
    ensures Left(Current(s.calls), PlanAt(s, v), s.th[v]) <= Entered(Current(s.calls), PlanAt(s, u), s.th[u])
  {
    ReachableSafe(s);
    PassedByRoot(s, v);
    GatheredByAll(s, u);
    assert LocalAt(s, 0);
  }

  ghost predicate InSynchronize(pc: Pc) {
    pc.Collect? || pc.Take? || pc.Publish? || pc.Raise? || pc.Await? || pc.Retract? || pc.Give? || pc.Lower?
  }

  /** The thread has begun or finished its part of the current call. */
  ghost predicate TakesPart(k: Plan, y: Thread) {
    (y.pc != Unborn && y.pc != Parked) || Done(k, y)
  }

  /** The barrier, by what the calls of `synchronize` or `reduce` have returned so far: no thread has more results than another
      one has, counting the call that the other one is in. */
  lemma BarrierByResults(s: State, u: nat, v: nat)
    requires Reachable(s) && NestedStrides(|s.th|) && Active(s) && s.calls != [] && u < |s.th| && v < |s.th|
    requires u < Current(s.calls).concurrency && v < Current(s.calls).concurrency && TakesPart(PlanAt(s, v), s.th[v])
    ensures if TakesPart(PlanAt(s, u), s.th[u])
            then |s.th[v].sums| <= |s.th[u].sums| + (if InSynchronize(s.th[u].pc) then 1 else 0)
            else s.th[v].sums == []
  {
    BarrierSafety(s, u, v);
    ReachableSafe(s);
    assert LocalAt(s, u) && LocalAt(s, v);
    hide Local, Inv, PlanAt;
    LeftCountsSums(CtxOf(s), PlanAt(s, v), v, s.th[v]);
    if TakesPart(PlanAt(s, u), s.th[u]) {
      LeftCountsSums(CtxOf(s), PlanAt(s, u), u, s.th[u]);
    }
  }

  // ---------- In-task reductions ----------

  lemma LeftCountsSums(x: Ctx, k: Plan, v: nat, y: Thread)
    requires Local(x, k, v, y) && v < x.t.concurrency && ((y.pc != Unborn && y.pc != Parked) || Done(k, y))
    ensures SumsAre(x, y.sums, Left(x.t, k, y))
  {
  }

  /** Every `reduce` call returns, on every thread, the contributions of all threads combined in index order, where the
      contributions may depend on what the earlier calls returned. */
  lemma ReduceResult(s: State, v: nat, r: nat)
    requires Reachable(s) && NestedStrides(|s.th|) && Active(s) && s.calls != [] && v < |s.th| && v < Current(s.calls).concurrency
    requires (s.th[v].pc != Unborn && s.th[v].pc != Parked) || Done(PlanAt(s, v), s.th[v])
    requires r < Left(Current(s.calls), PlanAt(s, v), s.th[v])
    ensures var t, y := Current(s.calls), s.th[v];
            |y.sums| == Left(t, PlanAt(s, v), y) &&
            (AssociativeUpTo(t, r + 1) ==>
               y.sums[r] == Fold(t.syncOp(r), Contributions(t, r), 0, t.concurrency) && y.sums[..r] == Reductions(t, r))
  {
    ReachableSafe(s);
    assert LocalAt(s, v);
    hide Local;
    var x, sums := CtxOf(s), s.th[v].sums;
    LeftCountsSums(x, PlanAt(s, v), v, s.th[v]);
    assert AccIs(x, r, sums[r], 0, x.t.concurrency);
    if AssociativeUpTo(x.t, r + 1) {
      SumsAreReductions(x, sums[..r], r);
    }
  }

  /** Whenever a thread is about to use a child's synchronization data, the child has published them
      and waits in the same round. */
  lemma SyncDataIsCurrent(s: State, i: nat)
    requires Reachable(s) && NestedStrides(|s.th|) && Active(s) && i < |s.th|
    requires var pc := s.th[i].pc; (pc.Take? || pc.Give? || pc.Lower?) && pc.todo != []
    ensures var u := s.th[i].pc.todo[0]; u < |s.th| && s.th[u].published && s.th[u].pc == Await(s.th[i].pc.r)
  {
    ReachableSafe(s);
    SyncTarget(s, i);
    CallFacts(s);
    var x, k, y, u := CtxOf(s), PlanAt(s, i), s.th[i], s.th[i].pc.todo[0];
    assert EdgeAt(s, u) && LocalAt(s, u) && LocalAt(s, i);
    SyncTargetTakesPart(x, k, i, y);
    hide Local, Edge;
    HeardChild(x, k, i, y, PlanAt(s, u), u, s.th[u]);
  }

  lemma SyncTargetTakesPart(x: Ctx, k: Plan, v: nat, y: Thread)
    requires Local(x, k, v, y) && (y.pc.Take? || y.pc.Give? || y.pc.Lower?) && y.pc.todo != []
    ensures k.live && 0 < y.pc.todo[0] < x.t.concurrency && Heard(y, y.pc.todo[0])
  {
    assert IsKid(x.n, x.t.concurrency, v, y.pc.todo[0]);
  }

  // ---------- transform_reduce ----------

  /** The sequential reduction that `transform_reduce` stands for. */
  ghost function SequentialReduce(op: (Value, Value) -> Value, init: Value, f: nat -> Value, c: nat): Value {
    if c == 0 then init else op(SequentialReduce(op, init, f, c - 1), f(c - 1))
  }

  lemma {:induction false} FoldIsSequential(op: (Value, Value) -> Value, init: Value, f: nat -> Value, c: nat)
    requires Associative(op) && c > 0
    ensures op(init, Fold(op, f, 0, c)) == SequentialReduce(op, init, f, c)
    decreases c
  {
    if c > 1 {
      FoldIsSequential(op, init, f, c - 1);
      var y, z := Fold(op, f, 0, c - 1), f(c - 1);
      assert op(op(init, y), z) == op(init, op(y, z));
    } else {
      assert SequentialReduce(op, init, f, 0) == init;
    }
  }

  lemma SlotsMerged(s: State, v: nat)
    requires Returning(s) && Reduces(CtxOf(s)) && 0 < v < |s.th|
    ensures s.th[v].slot == None
  {
    var x, p := CtxOf(s), Parent(|s.th|, v);
    var kp, kc := PlanAt(s, p), PlanAt(s, v);
    AllCompleted(s, v);
    AllCompleted(s, p);
    assert EdgeAt(s, v) && LocalAt(s, v) && LocalAt(s, p);
    hide Local, Inv, PlanOf;
    if !kc.live {
      NotLiveIsIdle(x, kc, v, s.th[v]);
    }
  }

  /** A thread that executes the action finds its slot empty. */
  lemma SlotIsEmptyBefore(s: State, i: nat)
    requires Reachable(s) && NestedStrides(|s.th|) && i < |s.th| && s.th[i].pc.Execute?
    ensures s.th[i].slot == None
  {
    ReachableSafe(s);
    RestingThread(s, i);
    assert Active(s) ==> LocalAt(s, i);
  }

  /** When a `transform_reduce` call is about to return, slot 0 holds the results of threads 0 to c-1 combined in index
      order and the other slots are empty; what the call returns is the sequential reduction. */
  lemma TransformReduceRefinesFold(s: State, init: Value)
    requires Reachable(s) && NestedStrides(|s.th|) && s.main == Release && s.calls != []
    requires var t := Current(s.calls); t.reduces && (t.concurrency == |s.th| || !t.joinRequested)
    ensures var t := Current(s.calls);
            |s.th| >= 1 && s.th[0].slot.Some? && (forall v :: 0 < v < |s.th| ==> s.th[v].slot == None) &&
            (Associative(t.reduceOp) ==>
               t.reduceOp(init, s.th[0].slot.value) == SequentialReduce(t.reduceOp, init, t.result, t.concurrency))
  {
    ReachableSafe(s);
    var t := Current(s.calls);
    assert CallOk(|s.th|, s.calls[|s.calls| - 1]);
    forall v | 0 < v < |s.th| ensures s.th[v].slot == None {
      SlotsMerged(s, v);
    }
    AllCompleted(s, 0);
    assert End(|s.th|, t.concurrency, 0) == t.concurrency;
    if Associative(t.reduceOp) {
      FoldIsSequential(t.reduceOp, init, t.result, t.concurrency);
    }
  }

  // ---------- Task lifetime ----------

  lemma RestingThread(s: State, i: nat)
    requires Inv(s) && i < |s.th|
    ensures !Active(s) ==> s.th[i].incoming == s.th[i].outgoing
    ensures !Active(s) ==> s.th[i].pc.Unborn? || s.th[i].pc.Parked? || s.th[i].pc.Exited?
  {
    assert !Active(s) ==> RestAt(s, i);
  }

  /** From waking up until it has exited or is parked again, a thread is in a call, and the task that it refers to is the one
      stored in `task_`, which is the current one. */
  lemma TaskLifetime(s: State, i: nat)
    requires Reachable(s) && NestedStrides(|s.th|) && i < |s.th|
    requires var pc := s.th[i].pc; pc != Unborn && pc != Parked && pc != Exited
    ensures Active(s) && s.task == Some(s.th[i].task) && s.th[i].task == |s.calls| - 1
  {
    ReachableSafe(s);
    RestingThread(s, i);
    OwnFacts(s, i);
  }

  /** A thread that wakes up finds the task of the current call. */
  lemma WakeFindsTask(s: State, i: nat)
    requires Reachable(s) && NestedStrides(|s.th|) && i < |s.th| && s.th[i].pc.Parked? && s.th[i].incoming != s.th[i].outgoing
    ensures s.calls != [] && s.task == Some(|s.calls| - 1) && Enabled(s, i)
  {
    ReachableSafe(s);
    RestingThread(s, i);
  }

  // ---------- Joining ----------

  /** The thread that `i` is about to join is being forked: it runs, but its handle has not been stored yet. */
  ghost predicate JoinsUnrecorded(s: State, i: nat)
    requires i < |s.th|
  {
    s.th[i].pc.Join? && s.th[i].pc.todo != [] && s.main == ForkRecord(s.th[i].pc.todo[0])
  }

  /** A created thread without a handle is the one whose handle is stored next. */
  lemma UnrecordedIsNext(s: State, v: nat)
    requires ActiveInv(s) && v < |s.th| && s.th[v].handle == NotStarted && (|s.calls| == 1 ==> s.th[v].pc != Unborn)
    ensures s.main == ForkRecord(v) && |s.calls| == 1
  {
    assert LocalAt(s, v);
    hide Stage;
  }

  lemma JoinTargetRuns(s: State, i: nat)
    requires ActiveInv(s) && i < |s.th| && s.th[i].pc.Join? && s.th[i].pc.todo != []
    ensures i < s.th[i].pc.todo[0] < |s.th| && s.calls != [] && Current(s.calls).joinRequested
    ensures IsRunning(s.th[s.th[i].pc.todo[0]]) <==> !JoinsUnrecorded(s, i)
    ensures JoinsUnrecorded(s, i) ==> |s.calls| == 1
  {
    CallTarget(s, i);
    Unpack(s, i);
    CallFacts(s);
    var u := s.th[i].pc.todo[0];
    assert LocalAt(s, u);
    assert JoinsUnrecorded(s, i) ==> s.th[u].handle == NotStarted;
    hide Local, Edge, Inv, PlanAt, CtxOf;
    if s.th[u].handle == NotStarted {
      UnrecordedIsNext(s, u);
    }
  }

  /** `join` is only ever called on a thread that has been forked and not been joined. Its handle has been stored, except
      while a first call that also joins is still forking a squad of two threads or more. */
  lemma JoinsOnlyForkedThreads(s: State, i: nat)
    requires Reachable(s) && NestedStrides(|s.th|) && i < |s.th| && s.th[i].pc.Join? && s.th[i].pc.todo != []
    ensures s.th[i].pc.todo[0] < |s.th|
    ensures var u := s.th[s.th[i].pc.todo[0]]; u.pc != Unborn && u.handle != Joined && (IsRunning(u) <==> !JoinsUnrecorded(s, i))
    ensures JoinsUnrecorded(s, i) ==> |s.calls| == 1 && Current(s.calls).joinRequested && |s.th| >= 2
  {
    hide Inv;
    ReachableSafe(s);
    RestingThread(s, i);
    JoinTargetRuns(s, i);
    JoinTargetIsBorn(s, i);
  }

  lemma JoinTargetIsBorn(s: State, i: nat)
    requires ActiveInv(s) && i < |s.th| && s.th[i].pc.Join? && s.th[i].pc.todo != []
    ensures s.th[i].pc.todo[0] < |s.th|
    ensures var u := s.th[s.th[i].pc.todo[0]]; u.pc != Unborn && u.handle != Joined
  {
    CallTarget(s, i);
    Unpack(s, i);
    CallFacts(s);
    var u := s.th[i].pc.todo[0];
    assert LocalAt(s, u);
    hide Stage, Edge;
  }

  lemma {:induction false} ExitedBelow(s: State, v: nat)
    requires ActiveInv(s) && v < |s.th| && s.th[0].pc == Exited
    ensures v > 0 ==> s.th[v].handle == Joined
    ensures s.th[v].pc == Exited
    decreases v
  {
    assert LocalAt(s, v) && LocalAt(s, 0);
    if v > 0 {
      ExitedBelow(s, Parent(|s.th|, v));
      assert EdgeAt(s, v);
    }
  }

  /** Thread 0 exits only after all other threads have been joined; once the squad is gone, each forked thread
      has exited and been joined. */
  lemma EverybodyIsJoined(s: State)
    requires Reachable(s) && NestedStrides(|s.th|)
    ensures |s.th| >= 1
    ensures s.th[0].pc == Exited ==> forall v :: 0 < v < |s.th| ==> s.th[v].handle == Joined
    ensures s.main == Gone ==> forall v :: 0 <= v < |s.th| ==>
              if s.calls == [] then s.th[v].handle == NotStarted else s.th[v].pc == Exited && s.th[v].handle == Joined
  {
    ReachableSafe(s);
    assert !Active(s) ==> RestAt(s, 0);
    forall v | 0 < v < |s.th| && s.th[0].pc == Exited ensures s.th[v].handle == Joined {
      if Active(s) {
        ExitedBelow(s, v);
      } else {
        assert RestAt(s, v);
      }
    }
    forall v | 0 <= v < |s.th| && s.main == Gone
      ensures if s.calls == [] then s.th[v].handle == NotStarted else s.th[v].pc == Exited && s.th[v].handle == Joined
    {
      assert RestAt(s, v);
    }
  }
}
