/** Squads of any size, with nested strides or without: what a joining call does to the threads. */
module Ragged {
  import opened Basics
  import opened Tree
  import opened TreeCover
  import opened Squad
  import opened Bounded

  // ---------- Who has joined whom ----------

  /** The targets that a thread in `join_subthreads` has still to join, if it is there or has left it. */
  ghost function StillToJoin(pc: Pc): (r: (bool, seq<nat>)) {
    match pc
    case Join(todo) => (true, todo)
    case Exited => (true, [])
    case _ => (false, [])
  }

  /** Thread `p` has joined its target `v`. */
  ghost predicate JoinedTarget(n: nat, pc: Pc, p: nat, v: nat)
    requires p < n
  {
    v in Up(n, n, p) && StillToJoin(pc).0 && v !in StillToJoin(pc).1
  }

  ghost predicate JoinedAt(s: State, p: nat, v: nat) {
    p < |s.th| && v < |s.th| && JoinedTarget(|s.th|, s.th[p].pc, p, v)
  }

  /** A joined thread is gone, and one thread has joined it. */
  ghost predicate JoinsOnce(s: State) {
    (forall p: nat, v: nat :: JoinedAt(s, p, v) ==> s.th[v].pc == Exited && s.th[v].handle == Joined) &&
    (forall p: nat, q: nat, v: nat :: JoinedAt(s, p, v) && JoinedAt(s, q, v) ==> p == q)
  }

  // ---------- The order of calls ----------

  ghost predicate LastJoins(s: State) {
    s.calls != [] && s.calls[|s.calls| - 1].joinRequested
  }

  /** How many handles the main thread has stored in the first call. */
  ghost predicate Unstored(s: State, v: nat) {
    match s.main
    case ForkWake(_) => true
    case ForkStart(k) => v >= k
    case ForkRecord(k) => v >= k
    case Ready => s.calls == []
    case _ => false
  }

  ghost predicate MainInOrder(s: State) {
    |s.th| >= 1 &&
    (forall g :: 0 <= g < |s.calls| - 1 ==> !s.calls[g].joinRequested) &&
    (s.task.Some? ==> s.task.value == |s.calls| - 1) &&
    (forall v: nat :: v < |s.th| && Unstored(s, v) ==> s.th[v].handle == NotStarted) &&
    match s.main
    case Ready => s.task == None && !LastJoins(s) && (s.calls != [] ==> s.th[0].handle == Started)
    case Gone => s.task == None && (s.calls != [] ==> LastJoins(s) && s.th[0].pc == Exited)
    case ForkWake(_) => s.task.Some? && |s.calls| == 1
    case ForkStart(k) => s.task.Some? && |s.calls| == 1 && (k > 0 ==> s.th[0].handle == Started)
    case ForkRecord(k) => k < |s.th| && s.task.Some? && |s.calls| == 1 && (k > 0 ==> s.th[0].handle == Started)
    case NotifyRoot => s.task.Some? && s.th[0].handle == Started
    case AwaitRoot => s.task.Some? && s.th[0].handle == Started
    case JoinRoot => s.task.Some? && LastJoins(s)
    case Release => s.task.Some? && if LastJoins(s) then s.th[0].pc == Exited else s.th[0].handle == Started
  }

  /** A thread that joins does so in a joining call, and there is none after it. */
  ghost predicate ThreadInOrder(s: State, x: Thread) {
    (x.pc.BeforeJoin? || x.pc.Join? || x.pc.Exited? ==> x.joinRequested) &&
    (x.joinRequested && !x.pc.Unborn? && !x.pc.Parked? ==> LastJoins(s))
  }

  ghost predicate InOrder(s: State) {
    Upwards(s) && MainInOrder(s) && JoinsOnce(s) && forall i: nat :: i < |s.th| ==> ThreadInOrder(s, s.th[i])
  }

  // ---------- Steps of a thread ----------

  /** What a step of its own may do to what matters for joining. */
  ghost predicate OwnEffect(n: nat, x: Thread, i: nat, z: Thread)
    requires i < n
  {
    z.handle == x.handle &&
    match x.pc
    case BeforeJoin => z.joinRequested == x.joinRequested && z.pc == Join(Up(n, n, i))
    case Join(todo) => z.joinRequested == x.joinRequested && z.pc == if todo == [] then Exited else Join(todo[1..])
    case _ => !z.pc.Join? && !z.pc.Exited?
  }

  lemma JoiningOwn(s: State, i: nat)
    requires i < |s.th| && Enabled(s, i) && (s.th[i].pc.BeforeJoin? || s.th[i].pc.Join?)
    requires MainInOrder(s) && ThreadInOrder(s, s.th[i])
    ensures OwnEffect(|s.th|, s.th[i], i, Own(s, i)) && ThreadInOrder(s, Own(s, i))
  {
    hide Up;
    assert NumThreadsForTask(s) == |s.th|;
  }

  lemma WakingOwn(s: State, i: nat)
    requires i < |s.th| && Enabled(s, i) && s.th[i].pc.Parked? && MainInOrder(s)
    ensures OwnEffect(|s.th|, s.th[i], i, Own(s, i)) && ThreadInOrder(s, Own(s, i))
  {
    hide Up, Down, NumThreadsForTask;
  }

  lemma CallOwn(s: State, i: nat)
    requires i < |s.th| && Enabled(s, i) && ThreadInOrder(s, s.th[i])
    requires var pc := s.th[i].pc; pc.Notify? || pc.Execute? || pc.AwaitKids? || pc.Merge? || pc.Signal?
    ensures OwnEffect(|s.th|, s.th[i], i, Own(s, i)) && ThreadInOrder(s, Own(s, i))
  {
    hide Up, Down, WakeCount, LastJoins;
  }

  lemma CollectOwn(s: State, i: nat)
    requires i < |s.th| && Enabled(s, i) && ThreadInOrder(s, s.th[i])
    requires var pc := s.th[i].pc; pc.Collect? || pc.Take? || pc.Publish? || pc.Raise?
    ensures OwnEffect(|s.th|, s.th[i], i, Own(s, i)) && ThreadInOrder(s, Own(s, i))
  {
    hide Up, Down, WakeCount, LastJoins;
  }

  lemma BroadcastOwn(s: State, i: nat)
    requires i < |s.th| && Enabled(s, i) && ThreadInOrder(s, s.th[i])
    requires var pc := s.th[i].pc; pc.Await? || pc.Retract? || pc.Give? || pc.Lower?
    ensures OwnEffect(|s.th|, s.th[i], i, Own(s, i)) && ThreadInOrder(s, Own(s, i))
  {
    hide Up, Down, WakeCount, LastJoins;
  }

  lemma OwnKeepsOrder(s: State, i: nat)
    requires i < |s.th| && Enabled(s, i) && ThreadInOrder(s, s.th[i]) && MainInOrder(s)
    ensures OwnEffect(|s.th|, s.th[i], i, Own(s, i)) && ThreadInOrder(s, Own(s, i))
  {
    hide Own, OwnEffect, ThreadInOrder, MainInOrder;
    var pc := s.th[i].pc;
    if pc.BeforeJoin? || pc.Join? {
      JoiningOwn(s, i);
    } else if pc.Parked? {
      WakingOwn(s, i);
    } else if pc.Collect? || pc.Take? || pc.Publish? || pc.Raise? {
      CollectOwn(s, i);
    } else if pc.Await? || pc.Retract? || pc.Give? || pc.Lower? {
      BroadcastOwn(s, i);
    } else {
      CallOwn(s, i);
    }
  }

  /** Of all threads only `i` and its target change; joining changes the handle of the target. */
  ghost predicate StepEffect(s: State, s': State, i: nat) {
    |s'.th| == |s.th| && s'.calls == s.calls && s'.main == s.main && s'.task == s.task && i < |s.th| &&
    OwnEffect(|s.th|, s.th[i], i, s'.th[i]) &&
    (forall v: nat :: v < |s.th| && v != i ==>
       s'.th[v].pc == s.th[v].pc && s'.th[v].joinRequested == s.th[v].joinRequested &&
       if Joins(s, i, v) then s.th[v].handle == Started && s.th[v].pc == Exited && s'.th[v].handle == Joined
       else s'.th[v].handle == s.th[v].handle)
  }

  /** The step of thread `i` joins thread `v`. */
  ghost predicate Joins(s: State, i: nat, v: nat)
    requires i < |s.th|
  {
    s.th[i].pc.Join? && s.th[i].pc.todo != [] && s.th[i].pc.todo[0] == v
  }

  lemma StepHasEffect(s: State, i: nat)
    requires InOrder(s) && i < |s.th| && Enabled(s, i)
    ensures StepEffect(s, ThreadStep(s, i), i) && ThreadInOrder(s, ThreadStep(s, i).th[i])
  {
    OwnKeepsOrder(s, i);
    StepMoves(s, i);
    hide Own, OwnEffect, InOrder, ThreadInOrder, Upwards;
  }

  lemma JoinedBefore(s: State, s': State, i: nat, p: nat, v: nat)
    requires StepEffect(s, s', i) && JoinedAt(s', p, v)
    ensures JoinedAt(s, p, v) || (p == i && Joins(s, i, v))
  {
    hide Up;
    if p == i && s.th[i].pc.Join? && s.th[i].pc.todo != [] {
      assert s.th[i].pc.todo == [s.th[i].pc.todo[0]] + s.th[i].pc.todo[1..];
    }
  }

  lemma StepJoinsOnce(s: State, s': State, i: nat)
    requires JoinsOnce(s) && StepEffect(s, s', i) && !s.th[i].pc.Exited? && (forall v: nat :: Joins(s, i, v) ==> v < |s.th| && v != i)
    ensures JoinsOnce(s')
  {
    hide JoinedTarget, OwnEffect;
    forall p: nat, v: nat | JoinedAt(s', p, v) ensures s'.th[v].pc == Exited && s'.th[v].handle == Joined {
      JoinedBefore(s, s', i, p, v);
    }
    forall p: nat, q: nat, v: nat | JoinedAt(s', p, v) && JoinedAt(s', q, v) ensures p == q {
      JoinedBefore(s, s', i, p, v);
      JoinedBefore(s, s', i, q, v);
    }
  }

  lemma StepKeepsMain(s: State, s': State, i: nat)
    requires MainInOrder(s) && StepEffect(s, s', i) && !s.th[i].pc.Exited? && !Joins(s, i, 0)
    ensures MainInOrder(s')
  {
    hide Up;
    forall v: nat | v < |s.th| && Unstored(s', v) ensures s'.th[v].handle == NotStarted {
      assert Unstored(s, v);
      assert v != i ==> s'.th[v].handle == s.th[v].handle;
    }
  }

  lemma StepKeepsThread(s: State, s': State, i: nat, v: nat)
    requires StepEffect(s, s', i) && v < |s.th| && v != i && ThreadInOrder(s, s.th[v])
    ensures ThreadInOrder(s', s'.th[v])
  {
    hide OwnEffect;
  }

  lemma ThreadStepInOrder(s: State, i: nat)
    requires InOrder(s) && i < |s.th| && Enabled(s, i)
    ensures InOrder(ThreadStep(s, i))
  {
    var s' := ThreadStep(s, i);
    StepHasEffect(s, i);
    UpwardsStep(s, OfThread(i));
    JoinTargetIsAbove(s, i);
    hide Own, OwnEffect, ThreadStep, StepEffect, Upwards, MainInOrder, JoinsOnce, ThreadInOrder;
    StepJoinsOnce(s, s', i);
    StepKeepsMain(s, s', i);
    StepKeepsLength(s, s', i);
    OrderDepends(s, s', s'.th[i]);
    forall v: nat | v < |s.th| ensures ThreadInOrder(s', s'.th[v]) {
      if v != i {
        StepKeepsThread(s, s', i, v);
      }
    }
  }

  lemma StepKeepsLength(s: State, s': State, i: nat)
    requires StepEffect(s, s', i)
    ensures |s'.th| == |s.th| && s'.calls == s.calls
  {
  }

  lemma OrderDepends(s: State, s': State, x: Thread)
    requires s'.calls == s.calls
    ensures ThreadInOrder(s', x) <==> ThreadInOrder(s, x)
  {
  }

  lemma JoinTargetIsAbove(s: State, i: nat)
    requires Upwards(s) && i < |s.th| && Enabled(s, i)
    ensures !s.th[i].pc.Exited? && forall v: nat :: Joins(s, i, v) ==> i < v < |s.th|
  {
    if s.th[i].pc.Join? && s.th[i].pc.todo != [] {
      assert s.th[i].pc.todo[0] in Todo(s.th[i].pc) && Above(i, Todo(s.th[i].pc));
    }
  }

  // ---------- Steps of the main thread ----------

  /** What a step of the main thread may do to what matters for joining. */
  ghost predicate MainEffect(s: State, s': State) {
    |s'.th| == |s.th| && s'.calls == s.calls &&
    forall v: nat :: v < |s.th| ==>
      s'.th[v].joinRequested == s.th[v].joinRequested &&
      (s'.th[v].pc == s.th[v].pc || (s.th[v].pc == Unborn && s'.th[v].pc == Parked)) &&
      (s'.th[v].handle == s.th[v].handle || v == 0 || s.th[v].handle == NotStarted)
  }

  lemma MainHasEffect(s: State)
    requires MainInOrder(s) && MainEnabled(s)
    ensures MainEffect(s, MainStep(s))
  {
    assert s.main.ForkRecord? ==> Unstored(s, s.main.k);
    hide NumThreadsForTask;
  }

  lemma JoinsOnceDepends(s: State, s': State)
    requires JoinsOnce(s) && MainEffect(s, s')
    ensures JoinsOnce(s')
  {
    forall p: nat, v: nat | JoinedAt(s', p, v)
      ensures JoinedAt(s, p, v) && v > 0
    {
      WalkOrder(|s.th|, |s.th|, p);
    }
    hide JoinedAt;
  }

  lemma MainKeepsOrder(s: State)
    requires MainInOrder(s) && MainEnabled(s)
    ensures MainInOrder(MainStep(s))
  {
    var s' := MainStep(s);
    forall v: nat | v < |s.th| && Unstored(s', v) ensures s'.th[v].handle == NotStarted {
      assert Unstored(s, v);
    }
  }

  lemma MainStepInOrder(s: State)
    requires InOrder(s) && MainEnabled(s)
    ensures InOrder(MainStep(s))
  {
    var s' := MainStep(s);
    UpwardsStep(s, OfMain);
    MainHasEffect(s);
    MainKeepsOrder(s);
    JoinsOnceDepends(s, s');
    hide MainStep, MainEnabled, Upwards, MainInOrder, JoinsOnce;
    forall i: nat | i < |s.th| ensures ThreadInOrder(s', s'.th[i]) {
      assert ThreadInOrder(s, s.th[i]);
    }
  }

  // ---------- Calls ----------

  lemma CallInOrder(s: State, t: Task)
    requires InOrder(s) && CanCall(s, t)
    ensures InOrder(Call(s, t))
  {
    var s' := Call(s, t);
    UpwardsStep(s, OfCaller(t));
    assert MainInOrder(s') by {
      hide Upwards, JoinsOnce, ThreadInOrder;
    }
    assert JoinsOnce(s') by {
      hide Upwards, MainInOrder, ThreadInOrder, JoinedTarget;
      assert forall p: nat, v: nat :: JoinedAt(s', p, v) ==> JoinedAt(s, p, v);
    }
    hide Upwards, JoinsOnce, HaveWork;
    forall i: nat | i < |s.th| ensures ThreadInOrder(s', s'.th[i]) {
      assert ThreadInOrder(s, s.th[i]);
    }
  }

  lemma DropInOrder(s: State)
    requires InOrder(s) && CanDrop(s)
    ensures InOrder(s.(main := Gone))
  {
    var s' := s.(main := Gone);
    assert JoinsOnce(s') by {
      hide JoinedTarget;
      assert forall p: nat, v: nat :: JoinedAt(s', p, v) ==> JoinedAt(s, p, v);
    }
    hide JoinsOnce;
    assert forall i: nat :: i < |s.th| ==> ThreadInOrder(s, s.th[i]);
  }

  lemma StepInOrder(s: State, e: Event)
    requires InOrder(s) && CanHappen(s, e)
    ensures InOrder(After(s, e)) && |After(s, e).th| == |s.th|
  {
    hide InOrder, Enabled, MainEnabled, CanCall, ThreadStep;
    match e
    case OfThread(i) => ThreadStepInOrder(s, i);
    case OfMain =>
      MainStepInOrder(s);
      MainKeepsTodo(s);
    case OfCaller(t) => CallInOrder(s, t);
    case Drop => DropInOrder(s);
  }

  lemma InitialInOrder(s: State)
    requires Initial(s)
    ensures InOrder(s)
  {
    assert forall i: nat :: i < |s.th| ==> FreshThread(s.th[i]);
  }

  lemma {:induction false} RunInOrder(s: State, es: seq<Event>)
    requires InOrder(s) && IsRun(s, es)
    ensures InOrder(Final(s, es)) && |Final(s, es).th| == |s.th|
    decreases |es|
  {
    hide InOrder, CanHappen, After;
    if es != [] {
      StepInOrder(s, es[0]);
      RunInOrder(After(s, es[0]), es[1..]);
    }
  }

  lemma ReachableInOrder(s: State)
    requires Reachable(s)
    ensures InOrder(s)
  {
    var start, es :| Initial(start) && IsRun(start, es) && s == Final(start, es);
    InitialInOrder(start);
    RunInOrder(start, es);
  }

  /** The calls that have work, which are those that can be made: between two calls, on no more threads than there are, with a
      concurrency other than 0, or, without reducing, in order to join a squad that has been used. The first call forks. A squad
      that has not been used can be dropped without a call. */
  lemma CallsWithWork(s: State, t: Task)
    requires Reachable(s)
    ensures CanCall(s, t) <==>
            s.main == Ready && t.concurrency <= |s.th| &&
            (t.concurrency > 0 || (t.joinRequested && !t.reduces && s.calls != []))
    ensures CanCall(s, t) ==> Call(s, t).main == if s.calls == [] then ForkWake(0) else NotifyRoot
    ensures CanDrop(s) <==> s.main == Ready && s.calls == []
  {
    ReachableInOrder(s);
    hide Upwards, JoinsOnce, ThreadInOrder;
    assert s.main == Ready && s.calls == [] ==> Unstored(s, 0);
  }

  /** A thread is forked only once: there is no handle yet. */
  lemma ForksOnce(s: State)
    requires Reachable(s) && s.main.ForkStart? && s.main.k < |s.th|
    ensures s.th[s.main.k].handle == NotStarted && |s.calls| == 1
  {
    ReachableInOrder(s);
    hide Upwards, JoinsOnce, ThreadInOrder;
    assert Unstored(s, s.main.k);
  }

  /** A thread that is about to join one whose handle is not stored yet does so in a first call, which joins. */
  lemma UnstoredIsJoinedInFirstCall(s: State, i: nat)
    requires Reachable(s) && i < |s.th| && s.th[i].pc.Join? && s.th[i].pc.todo != [] && s.main.ForkRecord?
    ensures |s.calls| == 1 && s.calls[0].joinRequested && i < s.th[i].pc.todo[0] && s.main.k < |s.th|
  {
    ReachableInOrder(s);
    assert ThreadInOrder(s, s.th[i]) && Above(i, Todo(s.th[i].pc)) && s.th[i].pc.todo[0] in Todo(s.th[i].pc);
  }

  // ---------- Without nested strides a squad is never destroyed ----------

  lemma {:induction false} EverybodyHasExited(s: State, v: nat)
    requires InOrder(s) && s.th[0].pc == Exited && v < |s.th|
    ensures s.th[v].pc == Exited
    decreases v
  {
    hide Up;
    if v > 0 {
      var p := Parent(|s.th|, v);
      EverybodyHasExited(s, p);
      Reached(|s.th|, |s.th|, v);
      assert JoinedAt(s, p, v);
    }
  }

  /** Once thread 0 has exited, every thread has been joined by all its callers, so none has two. */
  lemma ExitedIsNested(s: State)
    requires InOrder(s) && s.th[0].pc == Exited
    ensures NestedStrides(|s.th|)
  {
    if !NestedStrides(|s.th|) {
      var v, x := RaggedFromRoot(|s.th|);
      EverybodyHasExited(s, x);
      assert JoinedAt(s, 0, v) && JoinedAt(s, x, v);
      assert false;
    }
  }

  /** In a squad of any size: if the main thread has joined thread 0, the strides are nested. */
  lemma RaggedNeverJoins(s: State)
    requires Reachable(s) && s.calls != [] && s.calls[|s.calls| - 1].joinRequested
    ensures s.main == Release || s.main == Gone ==> NestedStrides(|s.th|)
  {
    ReachableInOrder(s);
    if s.main == Release || s.main == Gone {
      ExitedIsNested(s);
    }
  }
}
