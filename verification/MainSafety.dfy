/** Every step of the main thread, and every new call, keeps the invariant. */
module MainSafety {
  import opened Tree
  import opened Squad
  import opened Invariant
  import opened ThreadSteps
  import opened ThreadSafety

  // ---------- Forking: waking ----------

  /** In the first call no edge speaks about incoming flags. */
  lemma ForkWakeEdge(x: Ctx, kp: Plan, p: Thread, q: Thread, kc: Plan, v: nat, y: Thread, z: Thread)
    requires x.g == 0 && v < x.n && Edge(x, kp, p, kc, v, y)
    requires (q == p || q == Wake(p)) && (z == y || z == Wake(y))
    ensures Edge(x, kp, q, kc, v, z)
  {
  }

  lemma ForkWakeSafe(s: State, k: nat)
    requires ActiveInv(s) && s.main == ForkWake(k) && MainEnabled(s) && k < NumThreadsForTask(s)
    ensures ActiveInv(MainStep(s))
  {
    CallFacts(s);
    var s', x := MainStep(s), CtxOf(s);
    hide Local, Edge, RootEdge, PlanOf;
    forall v: nat | v < |s.th| ensures LocalAt(s', v) {
      assert LocalAt(s, v);
    }
    forall v: nat | 0 < v < |s.th| ensures EdgeAt(s', v) {
      assert EdgeAt(s, v);
      var p := Parent(|s.th|, v);
      ForkWakeEdge(x, PlanAt(s, p), s.th[p], s'.th[p], PlanAt(s, v), v, s.th[v], s'.th[v]);
    }
  }

  // ---------- Steps that only move the main thread on ----------

  lemma MoveOn(s: State, s': State)
    requires ActiveInv(s) && Active(s') && |s'.th| == |s.th| >= 1 && s' == s.(main := s'.main) && MainOk(s')
    requires RootEdge(CtxOf(s'), s'.main, PlanAt(s, 0), s.th[0])
    requires forall v: nat :: v < |s.th| && |s.calls| == 1 && PlanAt(s, v).live ==>
               (v < ForkingOf(s').woken <==> v < ForkingOf(s).woken)
    requires ForkingOf(s').created == ForkingOf(s).created && ForkingOf(s').recorded == ForkingOf(s).recorded
    ensures ActiveInv(s')
  {
    hide Local, Edge, RootEdge, PlanOf;
    forall v: nat | v < |s.th| ensures LocalAt(s', v) {
      assert LocalAt(s, v);
    }
    forall v: nat | 0 < v < |s.th| ensures EdgeAt(s', v) {
      assert EdgeAt(s, v);
    }
  }

  lemma ForkWakeDoneSafe(s: State, k: nat)
    requires ActiveInv(s) && s.main == ForkWake(k) && MainEnabled(s) && k >= NumThreadsForTask(s)
    ensures ActiveInv(MainStep(s))
  {
    CallFacts(s);
    assert forall v: nat :: v < |s.th| && PlanAt(s, v).live ==> v < k;
    hide Local, Edge, PlanAt;
    MoveOn(s, MainStep(s));
  }

  // ---------- Forking: starting ----------

  lemma ForkStartSafe(s: State, k: nat)
    requires ActiveInv(s) && s.main == ForkStart(k) && MainEnabled(s) && k < |s.th|
    ensures ActiveInv(MainStep(s))
  {
    CallFacts(s);
    var s', x := MainStep(s), CtxOf(s);
    hide LocalAt, EdgeAt, RootEdge, PlanOf;
    forall v: nat | v < |s.th| ensures LocalAt(s', v) {
      ForkStartLocal(s, k, v);
    }
    forall v: nat | 0 < v < |s.th| ensures EdgeAt(s', v) {
      ForkStartEdge(s, k, v);
    }
  }

  lemma ForkStartLocal(s: State, k: nat, v: nat)
    requires ActiveInv(s) && s.main == ForkStart(k) && MainEnabled(s) && k < |s.th| && v < |s.th|
    ensures s.calls != [] && LocalAt(MainStep(s), v)
  {
    CallFacts(s);
    assert LocalAt(s, v);
    hide Local, PlanOf, Inv;
  }

  lemma ForkStartEdge(s: State, k: nat, v: nat)
    requires ActiveInv(s) && s.main == ForkStart(k) && MainEnabled(s) && k < |s.th| && 0 < v < |s.th|
    ensures s.calls != [] && EdgeAt(MainStep(s), v)
  {
    CallFacts(s);
    var x, p, th := CtxOf(s), Parent(|s.th|, v), MainStep(s).th;
    assert EdgeAt(s, v) && LocalAt(s, v) && LocalAt(s, p);
    hide Local, Edge, PlanOf, Inv;
  }

  // ---------- Forking: recording ----------

  /** The thread may be anywhere by now, even through with the call. */
  ghost predicate Recorded(y: Thread, z: Thread) {
    y.handle == NotStarted && y.pc != Unborn && z == y.(handle := Started)
  }

  lemma RecordedLocal(x: Ctx, k: Plan, v: nat, y: Thread, z: Thread)
    requires Local(x, k, v, y) && Recorded(y, z)
    ensures Local(x, k, v, z)
  {
    hide SumsAre, KidTiles, AccIs, SlotIs, Reduces, Kids;
  }

  lemma RecordedChild(x: Ctx, kp: Plan, p: Thread, kc: Plan, v: nat, y: Thread, z: Thread)
    requires v < x.n && Edge(x, kp, p, kc, v, y) && Recorded(y, z)
    ensures Edge(x, kp, p, kc, v, z)
  {
  }

  lemma ForkRecordSafe(s: State, k: nat)
    requires ActiveInv(s) && s.main == ForkRecord(k) && MainEnabled(s)
    ensures ActiveInv(MainStep(s))
  {
    CallFacts(s);
    var s', x := MainStep(s), CtxOf(s);
    hide Local, Edge, RootEdge, PlanOf;
    forall v: nat | v < |s.th| ensures LocalAt(s', v) {
      assert LocalAt(s, v);
      if v == k {
        RecordedLocal(x, PlanAt(s, v), v, s.th[v], s'.th[v]);
      }
    }
    forall v: nat | 0 < v < |s.th| ensures EdgeAt(s', v) {
      assert EdgeAt(s, v) && LocalAt(s, v);
      var p := Parent(|s.th|, v);
      if v == k {
        RecordedChild(x, PlanAt(s, p), s.th[p], PlanAt(s, v), v, s.th[v], s'.th[v]);
      } else if p == k {
        ParentKeeps(x, PlanAt(s, p), s.th[p], s'.th[p], PlanAt(s, v), v, s.th[v]);
      }
    }
    assert LocalAt(s, 0);
  }

  lemma ForkDoneSafe(s: State, k: nat)
    requires ActiveInv(s) && s.main == ForkStart(k) && MainEnabled(s) && k >= |s.th|
    ensures ActiveInv(MainStep(s))
  {
    MoveOn(s, MainStep(s));
  }

  // ---------- Thread 0 ----------

  lemma NotifyRootSafe(s: State)
    requires ActiveInv(s) && s.main == NotifyRoot && MainEnabled(s)
    ensures ActiveInv(MainStep(s))
  {
    var s', x, k, y := MainStep(s), CtxOf(s), PlanAt(s, 0), s.th[0];
    assert LocalAt(s, 0);
    assert x.g > 0 && k.live && y.woken != k.wakes + 1;
    assert RootEdge(x, s'.main, k, Wake(y));
    hide Local, Edge, PlanOf, RootEdge;
    LiftRoot(s, s');
  }

  /** A step that changes thread 0 and nothing of what its children rely on. */
  lemma LiftRoot(s: State, s': State)
    requires ActiveInv(s) && Active(s') && |s'.th| == |s.th| >= 1 && s' == s.(main := s'.main, th := s.th[0 := s'.th[0]]) && MainOk(s')
    requires RootEdge(CtxOf(s), s'.main, PlanAt(s, 0), s'.th[0]) && Local(CtxOf(s), PlanAt(s, 0), 0, s'.th[0])
    requires s'.th[0].pc == s.th[0].pc && s'.th[0].completed == s.th[0].completed
    requires ForkingOf(s') == ForkingOf(s) == Forking(|s.th|, |s.th|, |s.th|)
    requires |s.calls| == 1 ==> s'.th[0].woken == s.th[0].woken
    requires s'.th[0].handle == NotStarted <==> s.th[0].handle == NotStarted
    ensures ActiveInv(s')
  {
    hide LocalAt, EdgeAt, RootEdge, PlanOf;
    forall v: nat | v < |s.th| ensures LocalAt(s', v) {
      LiftRootLocal(s, s', v);
    }
    forall v: nat | 0 < v < |s.th| ensures EdgeAt(s', v) {
      LiftRootEdge(s, s', v);
    }
  }

  lemma LiftRootLocal(s: State, s': State, v: nat)
    requires ActiveInv(s) && Active(s') && |s'.th| == |s.th| >= 1 && s' == s.(main := s'.main, th := s.th[0 := s'.th[0]]) && v < |s.th|
    requires Local(CtxOf(s), PlanAt(s, 0), 0, s'.th[0]) && s'.th[0].pc == s.th[0].pc
    requires ForkingOf(s') == ForkingOf(s)
    requires |s.calls| == 1 ==> s'.th[0].woken == s.th[0].woken
    requires s'.th[0].handle == NotStarted <==> s.th[0].handle == NotStarted
    ensures s.calls != [] && LocalAt(s', v)
  {
    CallFacts(s);
    assert LocalAt(s, v);
    hide Local, PlanOf, Inv, ForkingOf;
  }

  lemma LiftRootEdge(s: State, s': State, v: nat)
    requires |s'.th| == |s.th| >= 1 && s.calls != [] && s' == s.(main := s'.main, th := s.th[0 := s'.th[0]]) && 0 < v < |s.th| && EdgeAt(s, v)
    requires s'.th[0].pc == s.th[0].pc && s'.th[0].completed == s.th[0].completed
    ensures EdgeAt(s', v)
  {
    hide Edge, PlanOf;
    if Parent(|s.th|, v) == 0 {
      ParentKeeps(CtxOf(s), PlanAt(s, 0), s.th[0], s'.th[0], PlanAt(s, v), v, s.th[v]);
    }
  }

  lemma AwaitRootSafe(s: State)
    requires ActiveInv(s) && s.main == AwaitRoot && MainEnabled(s)
    ensures ActiveInv(MainStep(s))
  {
    var x, k, y := CtxOf(s), PlanAt(s, 0), s.th[0];
    assert LocalAt(s, 0);
    SameSenseMeansCompleted(y);
    assert y.woken == k.wakes + 1;
    hide Local, Edge, PlanOf;
    MoveOn(s, MainStep(s));
  }

  lemma JoinRootSafe(s: State)
    requires ActiveInv(s) && s.main == JoinRoot && MainEnabled(s)
    ensures ActiveInv(MainStep(s))
  {
    var s', x, k, y := MainStep(s), CtxOf(s), PlanAt(s, 0), s.th[0];
    var z := y.(handle := Joined);
    assert LocalAt(s, 0);
    assert RootEdge(x, Release, k, z);
    hide Local, Edge, PlanOf, RootEdge;
    LiftRoot(s, s');
  }
}
