/** Every step of a squad thread keeps the invariant. */
module ThreadSafety {
  import opened Basics
  import opened Tree
  import opened Squad
  import opened Invariant
  import opened ThreadSteps

  ghost predicate ActiveInv(s: State) {
    Inv(s) && Active(s)
  }

  /** The edge from thread `i`, were it in the state `z`, to its child `v`. */
  ghost predicate ChildEdge(s: State, i: nat, z: Thread, v: nat)
    requires s.calls != [] && i < |s.th| && v < |s.th|
  {
    Edge(CtxOf(s), PlanAt(s, i), z, PlanAt(s, v), v, s.th[v])
  }

  /** The edge from the parent of `i` (or the main thread) to thread `i`, were it in the state `z`. */
  ghost predicate UpperEdge(s: State, i: nat, z: Thread)
    requires s.calls != [] && i < |s.th|
  {
    if i == 0 then RootEdge(CtxOf(s), s.main, PlanAt(s, 0), z)
    else
      var p := Parent(|s.th|, i);
      Edge(CtxOf(s), PlanAt(s, p), s.th[p], PlanAt(s, i), i, z)
  }

  /** What the invariant says about the objects that the step of thread `i` uses. */
  lemma CallFacts(s: State)
    requires ActiveInv(s)
    ensures s.calls != [] && CtxOk(CtxOf(s)) && CtxOf(s).n == |s.th| && CtxOf(s).g == |s.calls| - 1
    ensures CtxOf(s).t == s.calls[|s.calls| - 1] && s.task == Some(|s.calls| - 1)
    ensures NumThreadsForTask(s) == WakeCount(|s.th|, CtxOf(s).t)
  {
  }

  lemma OwnFacts(s: State, i: nat)
    requires ActiveInv(s) && i < |s.th|
    ensures s.calls != [] && CtxOk(CtxOf(s)) && CtxOf(s).n == |s.th| && CtxOf(s).g == |s.calls| - 1
    ensures CtxOf(s).t == s.calls[|s.calls| - 1] && s.task == Some(|s.calls| - 1)
    ensures NumThreadsForTask(s) == WakeCount(|s.th|, CtxOf(s).t)
    ensures var y := s.th[i]; !y.pc.Unborn? && !y.pc.Parked? ==>
              y.task == |s.calls| - 1 && i < WakeCount(|s.th|, CtxOf(s).t)
    ensures s.th[i].pc.Raise? ==> i > 0
  {
    CallFacts(s);
    assert LocalAt(s, i);
    hide Local, Edge, RootEdge, CtxOf, PlanAt, WakeCount, NumThreadsForTask, CtxOk;
  }

  lemma SyncTarget(s: State, i: nat)
    requires ActiveInv(s) && i < |s.th|
    requires var pc := s.th[i].pc; (pc.Take? || pc.Give? || pc.Lower?) && pc.todo != []
    ensures s.calls != [] && s.th[i].pc.todo[0] < |s.th| && i < |s.th|
    ensures IsParent(|s.th|, s.th[i].pc.todo[0], i)
  {
    assert LocalAt(s, i);
    assert IsKid(|s.th|, CtxOf(s).t.concurrency, i, s.th[i].pc.todo[0]);
  }

  lemma CallTarget(s: State, i: nat)
    requires ActiveInv(s) && i < |s.th|
    requires var pc := s.th[i].pc; (pc.Notify? || pc.Merge? || pc.Join?) && pc.todo != []
    ensures s.calls != [] && s.th[i].pc.todo[0] < |s.th| && i < |s.th|
    ensures IsParent(|s.th|, s.th[i].pc.todo[0], i)
    ensures s.th[i].pc.Notify? ==> CtxOf(s).g > 0
  {
    assert LocalAt(s, i);
    assert IsKid(|s.th|, WakeCount(|s.th|, CtxOf(s).t), i, s.th[i].pc.todo[0]);
  }

  lemma Unpack(s: State, i: nat)
    requires ActiveInv(s) && i < |s.th|
    ensures s.calls != [] && LocalAt(s, i) && UpperEdge(s, i, s.th[i])
    ensures forall v: nat :: IsParent(|s.th|, v, i) ==> ChildEdge(s, i, s.th[i], v) && LocalAt(s, v)
  {
    hide Local, Edge, RootEdge, PlanOf;
    if i > 0 {
      assert EdgeAt(s, i);
    }
    forall v: nat | IsParent(|s.th|, v, i) ensures ChildEdge(s, i, s.th[i], v) && LocalAt(s, v) {
      assert EdgeAt(s, v);
    }
  }

  /** A thread runs only after the forking call has woken everybody that it wakes. */
  lemma ForkedIsWoken(s: State, i: nat, v: nat)
    requires ActiveInv(s) && i < |s.th| && v < |s.th| && !s.th[i].pc.Unborn?
    ensures s.calls != []
    ensures CtxOf(s).g == 0 && PlanAt(s, v).live ==> s.th[v].woken == PlanAt(s, v).wakes + 1
  {
    assert LocalAt(s, i) && LocalAt(s, v);
    hide Stage, Edge, RootEdge, PlanOf;
  }

  /** What a step may not do to a thread while it is being forked. */
  ghost predicate KeepsFork(g: nat, y: Thread, z: Thread) {
    (z.handle == NotStarted <==> y.handle == NotStarted) && (z.pc == Unborn <==> y.pc == Unborn) &&
    (g == 0 ==> z.woken == y.woken)
  }

  // ---------- A step that changes one thread, or a thread and one of its children ----------

  lemma LiftAlone(s: State, i: nat, z: Thread)
    requires ActiveInv(s) && i < |s.th|
    requires Local(CtxOf(s), PlanAt(s, i), i, z) && UpperEdge(s, i, z) && KeepsFork(|s.calls| - 1, s.th[i], z)
    requires forall v: nat :: IsParent(|s.th|, v, i) ==> ChildEdge(s, i, z, v)
    ensures ActiveInv(s.(th := s.th[i := z]))
  {
    hide Local, Edge, RootEdge, PlanOf;
    var s' := s.(th := s.th[i := z]);
    assert CtxOf(s') == CtxOf(s);
    forall v | 0 <= v < |s.th| ensures LocalAt(s', v) {
      assert LocalAt(s, v);
    }
    forall v | 0 < v < |s.th| ensures EdgeAt(s', v) {
      assert EdgeAt(s, v);
      if Parent(|s.th|, v) == i {
        assert ChildEdge(s, i, z, v);
      }
    }
  }

  lemma LiftPair(s: State, i: nat, z: Thread, k: nat, hit: Thread)
    requires ActiveInv(s) && i < |s.th| && IsParent(|s.th|, k, i)
    requires Local(CtxOf(s), PlanAt(s, i), i, z) && UpperEdge(s, i, z) && KeepsFork(|s.calls| - 1, s.th[i], z)
    requires forall v: nat :: IsParent(|s.th|, v, i) && v != k ==> ChildEdge(s, i, z, v)
    requires Local(CtxOf(s), PlanAt(s, k), k, hit) && Edge(CtxOf(s), PlanAt(s, i), z, PlanAt(s, k), k, hit)
    requires KeepsFork(|s.calls| - 1, s.th[k], hit)
    requires hit.pc == s.th[k].pc && hit.completed == s.th[k].completed
    ensures ActiveInv(s.(th := s.th[i := z][k := hit]))
  {
    hide LocalAt, EdgeAt, RootEdge, PlanOf, CtxOf, MainOk, UpperEdge, ChildEdge, Local, Edge, KeepsFork;
    var s' := s.(th := s.th[i := z][k := hit]);
    LiftRest(s, s', i);
    forall v | 0 <= v < |s.th| ensures LocalAt(s', v) {
      LiftPairLocal(s, s', i, k, v);
    }
    forall v | 0 < v < |s.th| ensures EdgeAt(s', v) {
      LiftPairEdge(s, s', i, k, v);
    }
  }

  /** Only the threads `i` and `k` differ. */
  ghost predicate DiffersAt(s: State, s': State, i: nat, k: nat) {
    |s'.th| == |s.th| && i < |s.th| && k < |s.th| && s'.main == s.main && s'.task == s.task && s'.calls == s.calls &&
    forall v :: 0 <= v < |s.th| && v != i && v != k ==> s'.th[v] == s.th[v]
  }

  lemma LiftPairLocal(s: State, s': State, i: nat, k: nat, v: nat)
    requires s.calls != [] && DiffersAt(s, s', i, k) && v < |s.th| && LocalAt(s, v)
    requires Local(CtxOf(s), PlanAt(s, i), i, s'.th[i]) && KeepsFork(|s.calls| - 1, s.th[i], s'.th[i])
    requires Local(CtxOf(s), PlanAt(s, k), k, s'.th[k]) && KeepsFork(|s.calls| - 1, s.th[k], s'.th[k])
    ensures LocalAt(s', v)
  {
    hide Local, PlanOf;
  }

  lemma LiftPairEdge(s: State, s': State, i: nat, k: nat, v: nat)
    requires s.calls != [] && DiffersAt(s, s', i, k) && IsParent(|s.th|, k, i) && 0 < v < |s.th| && EdgeAt(s, v)
    requires UpperEdge(s, i, s'.th[i])
    requires IsParent(|s.th|, v, i) && v != k ==> ChildEdge(s, i, s'.th[i], v)
    requires Edge(CtxOf(s), PlanAt(s, i), s'.th[i], PlanAt(s, k), k, s'.th[k])
    requires s'.th[k].pc == s.th[k].pc && s'.th[k].completed == s.th[k].completed
    ensures EdgeAt(s', v)
  {
    hide Edge, RootEdge, PlanOf, Parent;
    if Parent(|s.th|, v) == k {
      ParentKeeps(CtxOf(s), PlanAt(s, k), s.th[k], s'.th[k], PlanAt(s, v), v, s.th[v]);
    }
  }

  lemma LiftRest(s: State, s': State, i: nat)
    requires ActiveInv(s) && |s'.th| == |s.th| && i < |s.th| && s'.main == s.main && s'.task == s.task && s'.calls == s.calls
    requires UpperEdge(s, i, s'.th[i]) && (i == 0 || s'.th[0] == s.th[0])
    ensures s'.calls != [] && CtxOf(s') == CtxOf(s) && MainOk(s') && RootEdge(CtxOf(s'), s'.main, PlanAt(s', 0), s'.th[0])
  {
    CallFacts(s);
    hide Edge, RootEdge, PlanOf;
  }

  /** The step of thread `i` leaves alone what the thread above relies on. */
  lemma QuietUpwards(s: State, i: nat, z: Thread)
    requires ActiveInv(s) && i < |s.th|
    requires var y := s.th[i];
             z.woken == y.woken && z.completed == y.completed && z.arrived == y.arrived && z.released == y.released &&
             z.handle == y.handle && (z.slot == y.slot || !Done(PlanAt(s, i), z)) && !z.pc.Await?
    ensures UpperEdge(s, i, z)
  {
    Unpack(s, i);
  }

  // ---------- One lemma per kind of step ----------

  lemma WakeUpSafe(s: State, i: nat)
    requires ActiveInv(s) && i < |s.th| && Enabled(s, i) && s.th[i].pc.Parked?
    ensures ActiveInv(ThreadStep(s, i))
  {
    hide Local, Edge, RootEdge, Inv, CtxOf, CtxOk, PlanAt, IsKid, WakeCount, Up, Down, NumThreadsForTask, Done, MainOk;
    OwnFacts(s, i);
    Unpack(s, i);
    var x, k, y, z := CtxOf(s), PlanAt(s, i), s.th[i], Own(s, i);
    WakeLocal(x, k, i, y, z.pc.todo, z);
    forall v: nat | IsParent(|s.th|, v, i) ensures ChildEdge(s, i, z, v) {
      WakeParent(x, k, i, y, z.pc.todo, z, PlanAt(s, v), v, s.th[v]);
    }
    QuietUpwards(s, i, z);
    LiftAlone(s, i, z);
  }

  lemma NotifySafe(s: State, i: nat)
    requires ActiveInv(s) && i < |s.th| && Enabled(s, i) && s.th[i].pc.Notify? && s.th[i].pc.todo != []
    ensures ActiveInv(ThreadStep(s, i))
  {
    hide Local, Edge, RootEdge, Inv, CtxOf, CtxOk, PlanAt, IsKid, WakeCount, Up, Down, NumThreadsForTask, Done, MainOk;
    OwnFacts(s, i);
    CallTarget(s, i);
    Unpack(s, i);
    var x, k, y, z, u := CtxOf(s), PlanAt(s, i), s.th[i], Own(s, i), s.th[i].pc.todo[0];
    NotifyLocal(x, k, i, y, z);
    NotifyTarget(x, k, i, y, z, PlanAt(s, u), u, s.th[u], Wake(s.th[u]));
    forall v: nat | IsParent(|s.th|, v, i) && v != u ensures ChildEdge(s, i, z, v) {
      NotifyParent(x, k, i, y, z, PlanAt(s, v), v, s.th[v]);
    }
    QuietUpwards(s, i, z);
    LiftPair(s, i, z, u, Wake(s.th[u]));
  }

  lemma EnterSafe(s: State, i: nat)
    requires ActiveInv(s) && i < |s.th| && Enabled(s, i) && s.th[i].pc.Notify? && s.th[i].pc.todo == []
    ensures ActiveInv(ThreadStep(s, i))
  {
    hide Local, Edge, RootEdge, Inv, CtxOf, CtxOk, PlanAt, IsKid, WakeCount, Up, Down, NumThreadsForTask, Done, MainOk;
    OwnFacts(s, i);
    Unpack(s, i);
    var x, k, y, z := CtxOf(s), PlanAt(s, i), s.th[i], Own(s, i);
    NotifyDoneLocal(x, k, i, y, z);
    forall v: nat | IsParent(|s.th|, v, i) ensures ChildEdge(s, i, z, v) {
      NotifyDoneParent(x, k, i, y, z, PlanAt(s, v), v, s.th[v]);
    }
    QuietUpwards(s, i, z);
    LiftAlone(s, i, z);
  }

  lemma ExecuteRoundSafe(s: State, i: nat)
    requires ActiveInv(s) && i < |s.th| && Enabled(s, i) && s.th[i].pc.Execute?
    requires s.th[i].task < |s.calls| && s.th[i].pc.r < s.calls[s.th[i].task].rounds
    ensures ActiveInv(ThreadStep(s, i))
  {
    hide Local, Edge, RootEdge, Inv, CtxOf, CtxOk, PlanAt, IsKid, WakeCount, Up, Down, NumThreadsForTask, Done, MainOk;
    OwnFacts(s, i);
    Unpack(s, i);
    var x, k, y, z := CtxOf(s), PlanAt(s, i), s.th[i], Own(s, i);
    ExecuteRoundLocal(x, k, i, y, z);
    forall v: nat | IsParent(|s.th|, v, i) ensures ChildEdge(s, i, z, v) {
      ExecuteRoundParent(x, k, i, y, z, PlanAt(s, v), v, s.th[v]);
    }
    QuietUpwards(s, i, z);
    LiftAlone(s, i, z);
  }

  lemma ExecuteDoneSafe(s: State, i: nat)
    requires ActiveInv(s) && i < |s.th| && Enabled(s, i) && s.th[i].pc.Execute?
    requires s.th[i].task < |s.calls| && s.th[i].pc.r == s.calls[s.th[i].task].rounds
    ensures ActiveInv(ThreadStep(s, i))
  {
    hide Local, Edge, RootEdge, Inv, CtxOf, CtxOk, PlanAt, IsKid, WakeCount, Up, Down, NumThreadsForTask, Done, MainOk;
    OwnFacts(s, i);
    Unpack(s, i);
    var x, k, y, z := CtxOf(s), PlanAt(s, i), s.th[i], Own(s, i);
    ExecuteDoneLocal(x, k, i, y, z);
    forall v: nat | IsParent(|s.th|, v, i) ensures ChildEdge(s, i, z, v) {
      ExecuteDoneParent(x, k, i, y, z, PlanAt(s, v), v, s.th[v]);
    }
    QuietUpwards(s, i, z);
    LiftAlone(s, i, z);
  }

  lemma CollectSafe(s: State, i: nat)
    requires ActiveInv(s) && i < |s.th| && Enabled(s, i) && s.th[i].pc.Collect?
    ensures ActiveInv(ThreadStep(s, i))
  {
    hide Local, Edge, RootEdge, Inv, CtxOf, CtxOk, PlanAt, IsKid, WakeCount, Up, Down, NumThreadsForTask, Done, MainOk;
    OwnFacts(s, i);
    Unpack(s, i);
    var x, k, y, z := CtxOf(s), PlanAt(s, i), s.th[i], Own(s, i);
    if y.pc.todo == [] {
      CollectDoneLocal(x, k, i, y, z);
    } else {
      CollectSeeLocal(x, k, i, y, z);
    }
    forall v: nat | IsParent(|s.th|, v, i) ensures ChildEdge(s, i, z, v) {
      if y.pc.todo == [] {
        CollectDoneParent(x, k, i, y, z, PlanAt(s, v), v, s.th[v]);
      } else {
        CollectSeeParent(x, k, i, y, z, PlanAt(s, v), v, s.th[v]);
      }
    }
    QuietUpwards(s, i, z);
    LiftAlone(s, i, z);
  }

  lemma TakeSafe(s: State, i: nat)
    requires ActiveInv(s) && i < |s.th| && Enabled(s, i) && s.th[i].pc.Take?
    ensures ActiveInv(ThreadStep(s, i))
  {
    hide Local, Edge, RootEdge, Inv, CtxOf, CtxOk, PlanAt, IsKid, WakeCount, Up, Down, NumThreadsForTask, Done, MainOk;
    OwnFacts(s, i);
    SyncTarget(s, i);
    Unpack(s, i);
    var x, k, y, z, u := CtxOf(s), PlanAt(s, i), s.th[i], Own(s, i), s.th[i].pc.todo[0];
    TakeLocal(x, k, i, y, z, PlanAt(s, u), s.th[u]);
    forall v: nat | IsParent(|s.th|, v, i) ensures ChildEdge(s, i, z, v) {
      TakeParent(x, k, i, y, z, PlanAt(s, v), v, s.th[v]);
    }
    QuietUpwards(s, i, z);
    LiftAlone(s, i, z);
  }

  lemma ReportSafe(s: State, i: nat)
    requires ActiveInv(s) && i < |s.th| && Enabled(s, i)
    requires s.th[i].pc.Publish? || s.th[i].pc.Await? || s.th[i].pc.Retract?
    ensures ActiveInv(ThreadStep(s, i))
  {
    hide Local, Edge, RootEdge, Inv, CtxOf, CtxOk, PlanAt, IsKid, WakeCount, Up, Down, NumThreadsForTask, Done, MainOk;
    OwnFacts(s, i);
    Unpack(s, i);
    var x, k, y, z := CtxOf(s), PlanAt(s, i), s.th[i], Own(s, i);
    if y.pc.Publish? {
      PublishLocal(x, k, i, y, z);
    } else if y.pc.Await? {
      AwaitLocal(x, k, i, y, z);
    } else {
      RetractLocal(x, k, i, y, z);
    }
    forall v: nat | IsParent(|s.th|, v, i) ensures ChildEdge(s, i, z, v) {
      ReportParent(x, k, i, y, z, PlanAt(s, v), v, s.th[v]);
    }
    QuietUpwards(s, i, z);
    LiftAlone(s, i, z);
  }

  lemma RaiseSafe(s: State, i: nat)
    requires ActiveInv(s) && i < |s.th| && Enabled(s, i) && s.th[i].pc.Raise?
    ensures ActiveInv(ThreadStep(s, i))
  {
    hide Local, Edge, RootEdge, Inv, CtxOf, CtxOk, PlanAt, IsKid, WakeCount, Up, Down, NumThreadsForTask, Done, MainOk;
    OwnFacts(s, i);
    Unpack(s, i);
    var x, k, y, z, p := CtxOf(s), PlanAt(s, i), s.th[i], Own(s, i), Parent(|s.th|, i);
    RaiseLocal(x, k, i, y, z);
    forall v: nat | IsParent(|s.th|, v, i) ensures ChildEdge(s, i, z, v) {
      ReportParent(x, k, i, y, z, PlanAt(s, v), v, s.th[v]);
    }
    RaiseChild(x, PlanAt(s, p), s.th[p], k, i, y, z);
    LiftAlone(s, i, z);
  }

  lemma GiveSafe(s: State, i: nat)
    requires ActiveInv(s) && i < |s.th| && Enabled(s, i) && s.th[i].pc.Give? && s.th[i].pc.todo != []
    ensures ActiveInv(ThreadStep(s, i))
  {
    hide Local, Edge, RootEdge, Inv, CtxOf, CtxOk, PlanAt, IsKid, WakeCount, Up, Down, NumThreadsForTask, Done, MainOk;
    OwnFacts(s, i);
    SyncTarget(s, i);
    Unpack(s, i);
    var x, k, y, z, u := CtxOf(s), PlanAt(s, i), s.th[i], Own(s, i), s.th[i].pc.todo[0];
    var hit := s.th[u].(acc := y.acc);
    GiveLocal(x, k, i, y, z);
    GiveTarget(x, k, i, y, z, PlanAt(s, u), u, s.th[u], hit);
    forall v: nat | IsParent(|s.th|, v, i) && v != u ensures ChildEdge(s, i, z, v) {
      GiveParent(x, k, i, y, z, PlanAt(s, v), v, s.th[v]);
    }
    QuietUpwards(s, i, z);
    LiftPair(s, i, z, u, hit);
  }

  lemma GiveDoneSafe(s: State, i: nat)
    requires ActiveInv(s) && i < |s.th| && Enabled(s, i) && s.th[i].pc.Give? && s.th[i].pc.todo == []
    ensures ActiveInv(ThreadStep(s, i))
  {
    hide Local, Edge, RootEdge, Inv, CtxOf, CtxOk, PlanAt, IsKid, WakeCount, Up, Down, NumThreadsForTask, Done, MainOk;
    OwnFacts(s, i);
    Unpack(s, i);
    var x, k, y, z := CtxOf(s), PlanAt(s, i), s.th[i], Own(s, i);
    GiveDoneLocal(x, k, i, y, z);
    forall v: nat | IsParent(|s.th|, v, i) ensures ChildEdge(s, i, z, v) {
      GiveDoneParent(x, k, i, y, z, PlanAt(s, v), v, s.th[v]);
    }
    QuietUpwards(s, i, z);
    LiftAlone(s, i, z);
  }

  lemma LowerSafe(s: State, i: nat)
    requires ActiveInv(s) && i < |s.th| && Enabled(s, i) && s.th[i].pc.Lower?
    ensures ActiveInv(ThreadStep(s, i))
  {
    hide Local, Edge, RootEdge, Inv, CtxOf, CtxOk, PlanAt, IsKid, WakeCount, Up, Down, NumThreadsForTask, Done, MainOk;
    OwnFacts(s, i);
    SyncTarget(s, i);
    Unpack(s, i);
    var x, k, y, z, u := CtxOf(s), PlanAt(s, i), s.th[i], Own(s, i), s.th[i].pc.todo[0];
    var hit := Hit(y, false, s.th[u]);
    LowerLocal(x, k, i, y, z);
    LowerTarget(x, k, i, y, z, PlanAt(s, u), u, s.th[u], hit);
    forall v: nat | IsParent(|s.th|, v, i) && v != u ensures ChildEdge(s, i, z, v) {
      LowerParent(x, k, i, y, z, PlanAt(s, v), v, s.th[v]);
    }
    QuietUpwards(s, i, z);
    LiftPair(s, i, z, u, hit);
  }

  lemma AwaitKidsSafe(s: State, i: nat)
    requires ActiveInv(s) && i < |s.th| && Enabled(s, i) && s.th[i].pc.AwaitKids?
    ensures ActiveInv(ThreadStep(s, i))
  {
    hide Local, Edge, RootEdge, Inv, CtxOf, CtxOk, PlanAt, IsKid, WakeCount, Up, Down, NumThreadsForTask, Done, MainOk;
    OwnFacts(s, i);
    Unpack(s, i);
    var x, k, y, z := CtxOf(s), PlanAt(s, i), s.th[i], Own(s, i);
    AwaitSeeLocal(x, k, i, y, z);
    forall v: nat | IsParent(|s.th|, v, i) ensures ChildEdge(s, i, z, v) {
      if y.pc.todo != [] && y.pc.todo[0] == v {
        ForkedIsWoken(s, i, v);
        AwaitedCompletes(x, k, i, y, PlanAt(s, v), v, s.th[v]);
      }
      AwaitSeeParent(x, k, i, y, z, PlanAt(s, v), v, s.th[v]);
    }
    QuietUpwards(s, i, z);
    LiftAlone(s, i, z);
  }

  lemma MergeShape(s: State, i: nat)
    requires ActiveInv(s) && i < |s.th| && Enabled(s, i) && s.th[i].pc.Merge?
    ensures s.calls != [] && s.th[i].pc.todo != [] && s.th[i].pc.todo[0] < |s.th|
    ensures var u, hit := s.th[i].pc.todo[0], Hit(s.th[i], CtxOf(s).t.reduces, s.th[s.th[i].pc.todo[0]]);
            MergeStep(CtxOf(s), s.th[i], Own(s, i), s.th[u], hit) &&
            (CtxOf(s).t.reduces ==> s.th[u].slot.Some? && u < CtxOf(s).t.concurrency) &&
            Own(s, i).pc == AwaitKids(s.th[i].pc.todo[1..]) && Own(s, i).completed == s.th[i].completed &&
            ThreadStep(s, i) == s.(th := s.th[i := Own(s, i)][u := hit]) &&
            hit.pc == s.th[u].pc && hit.completed == s.th[u].completed && KeepsFork(|s.calls| - 1, s.th[u], hit)
  {
    OwnFacts(s, i);
    hide Local, Edge, RootEdge, Inv, CtxOf, CtxOk, PlanAt, IsKid, WakeCount, Up, Down, NumThreadsForTask, Done, MainOk;
  }

  lemma MergeSafe(s: State, i: nat)
    requires ActiveInv(s) && i < |s.th| && Enabled(s, i) && s.th[i].pc.Merge?
    ensures ActiveInv(ThreadStep(s, i))
  {
    hide Local, Edge, RootEdge, Inv, CtxOf, CtxOk, PlanAt, IsKid, WakeCount, Up, Down, NumThreadsForTask, Done, MainOk, Enabled, Own, Hit, ThreadStep, MergeStep, UpperEdge, Parent, SlotIs;
    OwnFacts(s, i);
    MergeShape(s, i);
    CallTarget(s, i);
    Unpack(s, i);
    var x, k, y, z, u := CtxOf(s), PlanAt(s, i), s.th[i], Own(s, i), s.th[i].pc.todo[0];
    var hit := Hit(y, x.t.reduces, s.th[u]);
    if Reduces(x) {
      MergeableChild(x, k, i, y, PlanAt(s, u), u, s.th[u]);
    }
    MergeLocal(x, k, i, y, z, s.th[u], hit);
    MergeTarget(x, k, i, y, z, PlanAt(s, u), u, s.th[u], hit);
    forall v: nat | IsParent(|s.th|, v, i) && v != u ensures ChildEdge(s, i, z, v) {
      MergeParent(x, k, i, y, z, PlanAt(s, v), v, s.th[v]);
    }
    MergeUpwards(s, i);
    LiftPair(s, i, z, u, hit);
  }

  lemma MergeUpwards(s: State, i: nat)
    requires ActiveInv(s) && i < |s.th| && Enabled(s, i) && s.th[i].pc.Merge?
    ensures s.calls != [] && UpperEdge(s, i, Own(s, i)) && KeepsFork(|s.calls| - 1, s.th[i], Own(s, i))
  {
    OwnFacts(s, i);
    assert LocalAt(s, i);
    MergingParent(CtxOf(s), PlanAt(s, i), i, s.th[i]);
    assert !Done(PlanAt(s, i), Own(s, i));
    hide Local, Edge, RootEdge, Inv, CtxOf, CtxOk, PlanAt, IsKid, WakeCount, Up, Down, NumThreadsForTask, Done, MainOk;
    QuietUpwards(s, i, Own(s, i));
  }

  lemma SignalShape(s: State, i: nat)
    requires i < |s.th| && Enabled(s, i) && s.th[i].pc.Signal?
    ensures SignalStep(s.th[i], Own(s, i)) && ThreadStep(s, i) == s.(th := s.th[i := Own(s, i)])
    ensures s.calls != [] ==> KeepsFork(|s.calls| - 1, s.th[i], Own(s, i))
  {
  }

  lemma SignalSafe(s: State, i: nat)
    requires ActiveInv(s) && i < |s.th| && Enabled(s, i) && s.th[i].pc.Signal?
    ensures ActiveInv(ThreadStep(s, i))
  {
    hide Local, Edge, RootEdge, Inv, CtxOf, CtxOk, PlanAt, IsKid, WakeCount, Up, Down, NumThreadsForTask, Done, MainOk, Enabled, Own, ThreadStep, SignalStep;
    OwnFacts(s, i);
    SignalShape(s, i);
    Unpack(s, i);
    var x, k, y, z := CtxOf(s), PlanAt(s, i), s.th[i], Own(s, i);
    SignalLocal(x, k, i, y, z);
    forall v: nat | IsParent(|s.th|, v, i) ensures ChildEdge(s, i, z, v) {
      SignalParent(x, k, i, y, z, PlanAt(s, v), v, s.th[v]);
    }
    if i == 0 {
      SignalRoot(x, s.main, k, y, z);
    } else {
      var p := Parent(|s.th|, i);
      SignalChild(x, PlanAt(s, p), s.th[p], k, i, y, z);
    }
    LiftAlone(s, i, z);
  }

  lemma BeforeJoinSafe(s: State, i: nat)
    requires ActiveInv(s) && i < |s.th| && Enabled(s, i) && s.th[i].pc.BeforeJoin?
    ensures ActiveInv(ThreadStep(s, i))
  {
    hide Local, Edge, RootEdge, Inv, CtxOf, CtxOk, PlanAt, IsKid, WakeCount, Up, Down, NumThreadsForTask, Done, MainOk;
    OwnFacts(s, i);
    Unpack(s, i);
    var x, k, y, z := CtxOf(s), PlanAt(s, i), s.th[i], Own(s, i);
    BeforeJoinLocal(x, k, i, y, z);
    forall v: nat | IsParent(|s.th|, v, i) ensures ChildEdge(s, i, z, v) {
      BeforeJoinParent(x, k, i, y, z, PlanAt(s, v), v, s.th[v]);
    }
    QuietUpwards(s, i, z);
    LiftAlone(s, i, z);
  }

  lemma JoinDoneSafe(s: State, i: nat)
    requires ActiveInv(s) && i < |s.th| && Enabled(s, i) && s.th[i].pc.Join? && s.th[i].pc.todo == []
    ensures ActiveInv(ThreadStep(s, i))
  {
    hide Local, Edge, RootEdge, Inv, CtxOf, CtxOk, PlanAt, IsKid, WakeCount, Up, Down, NumThreadsForTask, Done, MainOk;
    OwnFacts(s, i);
    Unpack(s, i);
    var x, k, y, z := CtxOf(s), PlanAt(s, i), s.th[i], Own(s, i);
    JoinLocal(x, k, i, y, z);
    forall v: nat | IsParent(|s.th|, v, i) ensures ChildEdge(s, i, z, v) {
      JoinParent(x, k, i, y, z, PlanAt(s, v), v, s.th[v]);
    }
    QuietUpwards(s, i, z);
    LiftAlone(s, i, z);
  }

  lemma JoinSafe(s: State, i: nat)
    requires ActiveInv(s) && i < |s.th| && Enabled(s, i) && s.th[i].pc.Join? && s.th[i].pc.todo != []
    ensures ActiveInv(ThreadStep(s, i))
  {
    hide Local, Edge, RootEdge, Inv, CtxOf, CtxOk, PlanAt, IsKid, WakeCount, Up, Down, NumThreadsForTask, Done, MainOk;
    OwnFacts(s, i);
    CallTarget(s, i);
    Unpack(s, i);
    var x, k, y, z, u := CtxOf(s), PlanAt(s, i), s.th[i], Own(s, i), s.th[i].pc.todo[0];
    var hit := s.th[u].(handle := Joined);
    JoinLocal(x, k, i, y, z);
    forall v: nat | IsParent(|s.th|, v, i) && v != u ensures ChildEdge(s, i, z, v) {
      JoinParent(x, k, i, y, z, PlanAt(s, v), v, s.th[v]);
    }
    QuietUpwards(s, i, z);
    JoinTarget(x, k, i, y, z, PlanAt(s, u), u, s.th[u], hit);
    LiftPair(s, i, z, u, hit);
  }

  lemma RoundsBound(s: State, i: nat)
    requires ActiveInv(s) && i < |s.th| && s.th[i].pc.Execute?
    ensures s.th[i].task < |s.calls| && s.th[i].pc.r <= s.calls[s.th[i].task].rounds
  {
    assert LocalAt(s, i);
  }

  lemma ThreadStepSafe(s: State, i: nat)
    requires ActiveInv(s) && i < |s.th| && Enabled(s, i)
    ensures ActiveInv(ThreadStep(s, i))
  {
    match s.th[i].pc
    case Parked => WakeUpSafe(s, i);
    case Notify(todo) =>
      if todo == [] {
        EnterSafe(s, i);
      } else {
        NotifySafe(s, i);
      }
    case Execute(r) =>
      OwnFacts(s, i);
      RoundsBound(s, i);
      if r < s.calls[s.th[i].task].rounds {
        ExecuteRoundSafe(s, i);
      } else {
        ExecuteDoneSafe(s, i);
      }
    case Collect(_, _) => CollectSafe(s, i);
    case Take(_, _) => TakeSafe(s, i);
    case Publish(_) => ReportSafe(s, i);
    case Raise(_) => RaiseSafe(s, i);
    case Await(_) => ReportSafe(s, i);
    case Retract(_) => ReportSafe(s, i);
    case Give(_, todo) =>
      if todo == [] {
        GiveDoneSafe(s, i);
      } else {
        GiveSafe(s, i);
      }
    case Lower(_, _) => LowerSafe(s, i);
    case AwaitKids(_) => AwaitKidsSafe(s, i);
    case Merge(_) => MergeSafe(s, i);
    case Signal => SignalSafe(s, i);
    case BeforeJoin => BeforeJoinSafe(s, i);
    case Join(todo) =>
      if todo == [] {
        JoinDoneSafe(s, i);
      } else {
        JoinSafe(s, i);
      }
  }
}
