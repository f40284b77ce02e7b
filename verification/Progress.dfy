/** Which calls return: in these some step is always enabled. */
module Progress {
  import opened Tree
  import opened TreeCover
  import opened Squad
  import opened History
  import opened Invariant
  import opened ThreadSteps
  import opened ThreadSafety
  import opened Guarantees

  // ---------- Which calls return ----------

  /** The last call wakes all the threads it is meant to wake. */
  ghost predicate AllWoken(n: nat, calls: seq<Task>)
    requires calls != []
  {
    forall v: nat :: v < n && v < WakeCount(n, Current(calls)) ==> Live(n, calls, v)
  }

  /** No thread waits for one that stays asleep. */
  ghost predicate Waitable(n: nat, calls: seq<Task>)
    requires calls != []
  {
    Current(calls).joinRequested || Current(calls).rounds > 0 ==> AllWoken(n, calls)
  }

  /** No thread merges a result that does not exist. */
  ghost predicate Mergeable(n: nat, calls: seq<Task>)
    requires calls != []
  {
    Current(calls).reduces ==> AllWoken(n, calls) && Current(calls).concurrency == WakeCount(n, Current(calls))
  }

  /** The condition under which the last call returns: a call that neither joins nor synchronizes nor reduces always does. */
  ghost predicate CallReturns(n: nat, calls: seq<Task>)
    requires calls != []
  {
    Waitable(n, calls) && Mergeable(n, calls)
  }

  /** What a caller can check, which is the guard of the source: after the first call, every thread below the wake count that
      has targets in this call must have been woken before. */
  ghost predicate CallersHaveWoken(n: nat, calls: seq<Task>)
    requires calls != []
  {
    var w := WakeCount(n, Current(calls));
    |calls| == 1 || forall p: nat :: p < n && p < w && Up(n, w, p) != [] ==> Wakes(n, Earlier(calls), p) > 0
  }

  lemma {:induction false} WokenByCallers(n: nat, calls: seq<Task>, v: nat)
    requires calls != [] && v < n && v < WakeCount(n, Current(calls)) && CallersHaveWoken(n, calls)
    ensures Live(n, calls, v)
    decreases v
  {
    if v > 0 && |calls| > 1 {
      var p := Parent(n, v);
      WokenByCallers(n, calls, p);
      Reached(n, WakeCount(n, Current(calls)), v);
    }
  }

  lemma AllWokenExactly(n: nat, calls: seq<Task>)
    requires NestedStrides(n) && calls != [] && WakeCount(n, Current(calls)) <= n
    ensures AllWoken(n, calls) <==> CallersHaveWoken(n, calls)
  {
    var w := WakeCount(n, Current(calls));
    if CallersHaveWoken(n, calls) {
      forall v: nat | v < n && v < w ensures Live(n, calls, v) {
        WokenByCallers(n, calls, v);
      }
    }
    if AllWoken(n, calls) && |calls| > 1 {
      forall p: nat | p < n && p < w && Up(n, w, p) != [] ensures Wakes(n, Earlier(calls), p) > 0 {
        var v := Up(n, w, p)[0];
        ChildrenAreTargets(n, w, p, v);
        assert Live(n, calls, v);
      }
    }
  }

  // ---------- Checks ----------

  ghost predicate InAction(pc: Pc) {
    pc.Notify? || pc.Execute? || pc.Collect? || pc.Take? || pc.Retract? || pc.Give? || pc.Lower? || pc.AwaitKids? || pc.Merge?
  }

  /** What a thread checks before it goes on, point by point: the stored task on waking up and whenever the task is used, the
      empty slot for a result, the published data of a target, the handle in a join. */
  lemma FailedChecks(s: State, i: nat)
    requires i < |s.th|
    ensures s.th[i].pc.Parked? && s.task.None? ==> Fails(s, i) || s.th[i].incoming == s.th[i].outgoing
    ensures InAction(s.th[i].pc) && (s.task.None? || s.task.value != s.th[i].task) ==> Fails(s, i) || Blocked(s, i)
    ensures s.th[i].pc.Execute? && s.th[i].slot.Some? && s.th[i].task < |s.calls| ==>
              var t := s.calls[s.th[i].task]; (t.reduces && s.th[i].pc.r == t.rounds ==> Fails(s, i))
    ensures (s.th[i].pc.Take? || s.th[i].pc.Give?) && s.th[i].pc.todo != [] ==>
              var u := s.th[i].pc.todo[0]; (u < |s.th| && !s.th[u].published ==> Fails(s, i))
    ensures s.th[i].pc.Join? && s.th[i].pc.todo != [] ==>
              var u := s.th[i].pc.todo[0]; (u < |s.th| && s.th[u].handle != Started ==> Fails(s, i))
  {
  }

  /** A merge checks both slots and their indices. */
  lemma FailedMerge(s: State, i: nat)
    requires i < |s.th| && s.th[i].pc.Merge? && s.th[i].pc.todo != [] && s.th[i].pc.todo[0] < |s.th|
    requires s.th[i].task < |s.calls| && s.calls[s.th[i].task].reduces
    ensures var c, u := s.calls[s.th[i].task].concurrency, s.th[i].pc.todo[0];
            (s.th[i].slot.None? || s.th[u].slot.None? || i >= c || u >= c ==> Fails(s, i))
  {
  }

  /** What the main thread checks: there is no handle yet when it forks, there is one when it joins, and a task to release. */
  lemma FailedMainChecks(s: State)
    requires |s.th| >= 1
    ensures s.main.ForkStart? && s.main.k < |s.th| && s.th[s.main.k].handle != NotStarted ==> MainFails(s)
    ensures s.main == JoinRoot && s.th[0].handle != Started ==> MainFails(s)
  {
  }

  // ---------- No check fails ----------

  lemma TargetOf(s: State, i: nat)
    requires ActiveInv(s) && i < |s.th|
    requires var pc := s.th[i].pc;
             (pc.Notify? || pc.Collect? || pc.Take? || pc.Give? || pc.Lower? || pc.AwaitKids? || pc.Merge? || pc.Join?) && pc.todo != []
    ensures var u := s.th[i].pc.todo[0];
            s.calls != [] && i < u < |s.th| && IsParent(|s.th|, u, i) && u < WakeCount(|s.th|, CtxOf(s).t)
    ensures s.th[i].pc.Collect? ==> s.th[i].pc.todo[0] < CtxOf(s).t.concurrency
  {
    assert LocalAt(s, i);
    var x, pc := CtxOf(s), s.th[i].pc;
    assert IsKid(x.n, WakeCount(x.n, x.t), i, pc.todo[0]) || IsKid(x.n, x.t.concurrency, i, pc.todo[0]);
  }

  /** The synchronization data that a thread is about to use are there. */
  lemma SyncDataReady(s: State, i: nat)
    requires ActiveInv(s) && i < |s.th|
    requires var pc := s.th[i].pc; (pc.Take? || pc.Give?) && pc.todo != []
    ensures s.th[i].pc.todo[0] < |s.th| && s.th[s.th[i].pc.todo[0]].published
  {
    var x, k, y, u := CtxOf(s), PlanAt(s, i), s.th[i], s.th[i].pc.todo[0];
    SyncTarget(s, i);
    CallFacts(s);
    assert EdgeAt(s, u) && LocalAt(s, u) && LocalAt(s, i);
    SyncTargetTakesPart(x, k, i, y);
    hide Local, Edge, Inv, PlanOf;
    HeardChild(x, k, i, y, PlanAt(s, u), u, s.th[u]);
  }

  /** The results that a thread is about to merge are there. */
  lemma ResultsReady(s: State, i: nat)
    requires ActiveInv(s) && Mergeable(|s.th|, s.calls) && i < |s.th| && s.th[i].pc.Merge? && CtxOf(s).t.reduces
    ensures s.th[i].pc.todo != [] && s.th[i].pc.todo[0] < |s.th| && s.th[s.th[i].pc.todo[0]].slot.Some?
    ensures i < s.th[i].pc.todo[0] < CtxOf(s).t.concurrency && s.th[i].slot.Some?
  {
    assert LocalAt(s, i);
    TargetOf(s, i);
    var u := s.th[i].pc.todo[0];
    assert EdgeAt(s, u) && LocalAt(s, u) && PlanAt(s, u).live && Reduces(CtxOf(s));
    hide Local, Edge, Inv, Mergeable, PlanOf;
  }

  /** A thread that does not wait passes all checks of its next step, or it joins a thread whose handle is not stored yet. */
  lemma ChecksHold(s: State, i: nat)
    requires ActiveInv(s) && Mergeable(|s.th|, s.calls) && i < |s.th|
    ensures Fails(s, i) ==> JoinsUnrecorded(s, i)
  {
    var pc := s.th[i].pc;
    OwnFacts(s, i);
    assert LocalAt(s, i);
    hide Local, Edge, PlanOf, PlanAt, LocalAt, Mergeable, RootEdge, MainOk, Inv, Reduces;
    if (pc.Notify? || pc.Collect? || pc.Take? || pc.Give? || pc.Lower? || pc.AwaitKids? || pc.Merge? || pc.Join?) && pc.todo != [] {
      TargetOf(s, i);
      if pc.Take? || pc.Give? {
        SyncDataReady(s, i);
      } else if pc.Merge? && CtxOf(s).t.reduces {
        ResultsReady(s, i);
      } else if pc.Join? {
        JoinTargetRuns(s, i);
      }
    }
  }

  // ---------- Some step is enabled ----------

  /** A thread that has been woken, is not through with the call, and does not wait for its parent. */
  ghost predicate Moving(k: Plan, y: Thread) {
    k.live && y.woken == k.wakes + 1 && y.pc != Exited && (y.pc == Parked ==> !Done(k, y)) &&
    (y.pc.Await? ==> y.arrived == y.released)
  }

  ghost predicate AllBorn(s: State) {
    forall v: nat :: v < |s.th| ==> s.th[v].pc != Unborn
  }

  /** A moving thread waits for nothing but a target. */
  lemma MovingWaitsForTarget(x: Ctx, k: Plan, v: nat, y: Thread)
    requires Local(x, k, v, y) && Moving(k, y)
    ensures y.pc.Parked? ==> y.incoming != y.outgoing
    ensures y.pc.Await? ==> y.downward == y.upward
    ensures y.pc.Collect? ==> x.t.rounds > 0
    ensures y.pc.Join? ==> x.t.joinRequested
  {
    hide SumsAre, AccIs, KidTiles, Kids, SlotIs;
  }

  lemma CollectBlocker(x: Ctx, k: Plan, p: nat, y: Thread, kc: Plan, u: nat, child: Thread)
    requires Local(x, k, p, y) && y.pc.Collect? && Local(x, kc, u, child) && Edge(x, k, y, kc, u, child) && kc.live
    requires 0 < u < x.t.concurrency && child.upward == child.downward
    requires x.g == 0 ==> child.woken == kc.wakes + 1
    ensures Moving(kc, child)
  {
    hide KidTiles, Kids, SumsAre, AccIs, SlotIs, Reduces;
    assert child.arrived == child.released;
    assert Notified(k, y, u);
    assert child.released == kc.syncs + y.pc.r;
  }

  /** A target whose flags differ has been woken, whether or not the call is meant to wake it. */
  lemma AwaitBlocker(x: Ctx, k: Plan, p: nat, y: Thread, kc: Plan, u: nat, child: Thread)
    requires Local(x, k, p, y) && y.pc.AwaitKids? && Local(x, kc, u, child) && Edge(x, k, y, kc, u, child)
    requires u > 0 && child.outgoing != child.incoming
    requires x.g == 0 && kc.live ==> child.woken == kc.wakes + 1
    ensures Moving(kc, child)
  {
    assert child.completed != child.woken;
    assert Notified(k, y, u);
    if !kc.live {
      NotLiveIsIdle(x, kc, u, child);
    }
  }

  lemma CollectBlockerMoves(s: State, i: nat)
    requires ActiveInv(s) && Waitable(|s.th|, s.calls) && i < |s.th| && s.th[i].pc.Collect? && Blocked(s, i)
    requires CtxOf(s).t.rounds > 0
    ensures var u := s.th[i].pc.todo[0]; i < u && Moving(PlanAt(s, u), s.th[u])
  {
    var u := s.th[i].pc.todo[0];
    TargetOf(s, i);
    ForkedIsWoken(s, i, u);
    assert EdgeAt(s, u) && LocalAt(s, u) && LocalAt(s, i) && PlanAt(s, u).live;
    hide Local, Edge, Inv, PlanOf, Moving, Waitable;
    CollectBlocker(CtxOf(s), PlanAt(s, i), i, s.th[i], PlanAt(s, u), u, s.th[u]);
  }

  lemma AwaitBlockerMoves(s: State, i: nat)
    requires ActiveInv(s) && i < |s.th| && s.th[i].pc.AwaitKids? && Blocked(s, i)
    ensures var u := s.th[i].pc.todo[0]; s.calls != [] && i < u && Moving(PlanAt(s, u), s.th[u])
  {
    var u := s.th[i].pc.todo[0];
    TargetOf(s, i);
    ForkedIsWoken(s, i, u);
    assert EdgeAt(s, u) && LocalAt(s, u) && LocalAt(s, i);
    hide Local, Edge, Inv, PlanOf, Moving;
    AwaitBlocker(CtxOf(s), PlanAt(s, i), i, s.th[i], PlanAt(s, u), u, s.th[u]);
  }

  lemma JoinBlockerMoves(s: State, i: nat)
    requires ActiveInv(s) && Waitable(|s.th|, s.calls) && i < |s.th| && s.th[i].pc.Join? && Blocked(s, i)
    requires CtxOf(s).t.joinRequested
    ensures var u := s.th[i].pc.todo[0]; i < u && Moving(PlanAt(s, u), s.th[u])
  {
    var u := s.th[i].pc.todo[0];
    TargetOf(s, i);
    assert EdgeAt(s, u) && LocalAt(s, u) && LocalAt(s, i) && PlanAt(s, u).live;
    hide Local, Edge, Inv, PlanOf, Moving, Waitable;
  }

  /** A moving thread that waits does so for a target that moves itself. */
  lemma BlockerMoves(s: State, i: nat)
    requires ActiveInv(s) && Waitable(|s.th|, s.calls) && i < |s.th| && Moving(PlanAt(s, i), s.th[i]) && s.th[i].pc != Unborn
    requires Blocked(s, i)
    ensures var pc := s.th[i].pc; (pc.Collect? || pc.AwaitKids? || pc.Join?) && pc.todo != []
    ensures var u := s.th[i].pc.todo[0]; i < u < |s.th| && Moving(PlanAt(s, u), s.th[u])
  {
    assert LocalAt(s, i);
    MovingWaitsForTarget(CtxOf(s), PlanAt(s, i), i, s.th[i]);
    hide Local, Edge, Inv, PlanOf, PlanAt, Waitable, CtxOf;
    if s.th[i].pc.Join? {
      JoinBlockerMoves(s, i);
    } else if s.th[i].pc.Collect? {
      CollectBlockerMoves(s, i);
    } else if s.th[i].pc.AwaitKids? {
      AwaitBlockerMoves(s, i);
    }
  }

  /** Follow the waits downwards: they end at a thread that does not wait. */
  lemma {:induction false} FindMover(s: State, i: nat) returns (j: nat)
    requires ActiveInv(s) && Waitable(|s.th|, s.calls) && AllBorn(s) && i < |s.th| && Moving(PlanAt(s, i), s.th[i])
    ensures j < |s.th| && !Blocked(s, j)
    decreases |s.th| - i
  {
    hide Inv, Waitable, Moving, Blocked, PlanOf;
    j := i;
    if Blocked(s, i) {
      BlockerMoves(s, i);
      j := FindMover(s, s.th[i].pc.todo[0]);
    }
  }

  /** During a call that returns the main thread or some squad thread can step. */
  lemma SomeStepIsEnabled(s: State) returns (e: Event)
    requires ActiveInv(s) && CallReturns(|s.th|, s.calls)
    ensures OfSquad(e) && CanHappen(s, e)
  {
    e := OfMain;
    if !MainEnabled(s) {
      MainWaitsForRoot(s);
      var j := FindMover(s, 0);
      hide Inv;
      ChecksHold(s, j);
      e := OfThread(j);
    }
  }

  lemma MainWaitsForRoot(s: State)
    requires ActiveInv(s) && !MainEnabled(s)
    ensures s.main == AwaitRoot || s.main == JoinRoot
    ensures s.calls != [] && Moving(PlanAt(s, 0), s.th[0]) && AllBorn(s)
  {
    CallFacts(s);
    MainBlockedWhere(s);
    forall v: nat | v < |s.th| ensures s.th[v].pc != Unborn {
      assert LocalAt(s, v);
    }
    assert LocalAt(s, 0);
    hide Stage;
  }

  /** Forking, notifying and releasing never block. */
  lemma MainMovesOtherwise(s: State)
    requires ActiveInv(s) && s.main != AwaitRoot && s.main != JoinRoot
    ensures MainEnabled(s)
  {
    CallFacts(s);
    if s.main.ForkStart? && s.main.k < |s.th| {
      assert LocalAt(s, s.main.k);
    }
    hide Stage, Edge;
  }

  lemma MainBlockedWhere(s: State)
    requires ActiveInv(s) && !MainEnabled(s)
    ensures s.main == AwaitRoot || s.main == JoinRoot
    ensures s.main == AwaitRoot ==> s.th[0].outgoing != s.th[0].incoming
    ensures s.main == JoinRoot ==> CtxOf(s).t.joinRequested && !s.th[0].pc.Exited? && IsRunning(s.th[0])
  {
    hide Inv, MainEnabled;
    if s.main != AwaitRoot && s.main != JoinRoot {
      MainMovesOtherwise(s);
    } else {
      MainWaits(s);
    }
  }

  lemma MainWaits(s: State)
    requires ActiveInv(s) && !MainEnabled(s) && (s.main == AwaitRoot || s.main == JoinRoot)
    ensures s.main == AwaitRoot ==> s.th[0].outgoing != s.th[0].incoming
    ensures s.main == JoinRoot ==> s.calls != [] && CtxOf(s).t.joinRequested && !s.th[0].pc.Exited? && IsRunning(s.th[0])
  {
    assert LocalAt(s, 0);
    hide Stage, Edge;
  }

  /** The checks of the main thread never fail. */
  lemma MainChecksHold(s: State)
    requires ActiveInv(s)
    ensures !MainFails(s)
  {
    hide MainEnabled;
    if !MainEnabled(s) {
      MainBlockedWhere(s);
    }
    hide Inv;
  }
}
