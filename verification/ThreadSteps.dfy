/** One step of a squad thread `v`, from `y` to `z`, and what it does to `Local` and to the edges at `v`. */
module ThreadSteps {
  import opened Basics
  import opened Tree
  import opened TreeCover
  import opened Squad
  import opened History
  import opened Invariant

  // ---------- The walks of a thread ----------

  lemma UpIsTiled(n: nat, c: nat, v: nat)
    requires NestedStrides(n) && v < c <= n
    ensures KidTiles(n, c, v, Up(n, c, v)) && NextThread(Up(n, c, v), End(n, c, v)) == v + 1
    ensures forall u :: IsKid(n, c, v, u) ==> u in Up(n, c, v)
  {
    WalkOrder(n, c, v);
    TargetsTile(n, c, v);
    forall u ensures u in Up(n, c, v) <==> IsKid(n, c, v, u) {
      ChildrenAreTargets(n, c, v, u);
    }
  }

  lemma DownIsKids(n: nat, c: nat, v: nat)
    requires NestedStrides(n) && v < n && c <= n
    ensures Kids(n, c, v, Down(n, c, v))
    ensures forall u :: IsKid(n, c, v, u) ==> u in Down(n, c, v)
  {
    WalkOrder(n, c, v);
    forall u ensures u in Down(n, c, v) <==> IsKid(n, c, v, u) {
      ChildrenAreTargets(n, c, v, u);
    }
  }

  lemma KidsTail(n: nat, c: nat, v: nat, todo: seq<nat>)
    requires todo != [] && Kids(n, c, v, todo)
    ensures Kids(n, c, v, todo[1..]) && IsKid(n, c, v, todo[0]) && todo[0] !in todo[1..]
    ensures forall u :: u in todo <==> u == todo[0] || u in todo[1..]
  {
    assert todo == [todo[0]] + todo[1..];
  }

  lemma KidTilesTail(n: nat, c: nat, v: nat, todo: seq<nat>)
    requires v < n && todo != [] && KidTiles(n, c, v, todo)
    ensures KidTiles(n, c, v, todo[1..]) && todo[0] < End(n, c, todo[0])
    ensures NextThread(todo[1..], End(n, c, v)) == End(n, c, todo[0])
  {
    var k := todo[0];
    KidsTail(n, c, v, todo);
    assert Tiles(n, c, todo[1..], End(n, c, k), End(n, c, v));
    if todo[1..] != [] {
      assert todo[1..][0] == End(n, c, k);
    }
  }

  ghost predicate CtxOk(x: Ctx) {
    NestedStrides(x.n) && x.t.concurrency <= x.n
  }

  // ---------- Steps that change nothing another thread relies on ----------

  /** The parent's side of an edge depends on what the parent does and whether it has completed, on nothing else. */
  lemma ParentKeeps(x: Ctx, kp: Plan, p: Thread, q: Thread, kc: Plan, v: nat, y: Thread)
    requires v < x.n && Edge(x, kp, p, kc, v, y)
    requires q.pc == p.pc && q.completed == p.completed
    ensures Edge(x, kp, q, kc, v, y)
  {
  }

  // ---------- Waking up: Parked to Notify ----------

  lemma WakeLocal(x: Ctx, k: Plan, v: nat, y: Thread, todo: seq<nat>, z: Thread)
    requires CtxOk(x) && Local(x, k, v, y) && y.pc == Parked && y.incoming != y.outgoing
    requires todo == if y.pass > 0 then Down(x.n, WakeCount(x.n, x.t), v) else []
    requires z == y.(pc := Notify(todo), task := x.g, joinRequested := x.t.joinRequested, sums := [])
    ensures Local(x, k, v, z) && Idle(x, k, y) && k.live
  {
    DownIsKids(x.n, WakeCount(x.n, x.t), v);
  }

  lemma WakeParent(x: Ctx, kp: Plan, p: nat, y: Thread, todo: seq<nat>, z: Thread, kc: Plan, v: nat, child: Thread)
    requires CtxOk(x) && Local(x, kp, p, y) && y.pc == Parked && Idle(x, kp, y) && kp.live
    requires v < x.n && IsParent(x.n, v, p) && Edge(x, kp, y, kc, v, child)
    requires todo == if y.pass > 0 then Down(x.n, WakeCount(x.n, x.t), p) else []
    requires z.pc == Notify(todo) && z.completed == y.completed
    ensures Edge(x, kp, z, kc, v, child)
  {
    DownIsKids(x.n, WakeCount(x.n, x.t), p);
    if kc.live {
      assert IsKid(x.n, WakeCount(x.n, x.t), p, v);
    }
  }

  ghost predicate IsParent(n: nat, v: nat, p: nat) {
    0 < v < n && Parent(n, v) == p
  }

  // ---------- Notifying ----------

  lemma NotifyLocal(x: Ctx, k: Plan, v: nat, y: Thread, z: Thread)
    requires CtxOk(x) && Local(x, k, v, y) && y.pc.Notify? && y.pc.todo != []
    requires z == y.(pc := Notify(y.pc.todo[1..]))
    ensures Local(x, k, v, z)
  {
    KidsTail(x.n, WakeCount(x.n, x.t), v, y.pc.todo);
  }

  lemma NotifyParent(x: Ctx, kp: Plan, p: nat, y: Thread, z: Thread, kc: Plan, v: nat, child: Thread)
    requires CtxOk(x) && Local(x, kp, p, y) && y.pc.Notify? && y.pc.todo != []
    requires z == y.(pc := Notify(y.pc.todo[1..]))
    requires v < x.n && v != y.pc.todo[0] && Edge(x, kp, y, kc, v, child)
    ensures Edge(x, kp, z, kc, v, child)
  {
    KidsTail(x.n, WakeCount(x.n, x.t), p, y.pc.todo);
  }

  lemma NotifyTarget(x: Ctx, kp: Plan, p: nat, y: Thread, z: Thread, kc: Plan, v: nat, child: Thread, hit: Thread)
    requires Local(x, kp, p, y) && y.pc.Notify? && y.pc.todo != [] && v == y.pc.todo[0]
    requires z == y.(pc := Notify(y.pc.todo[1..]))
    requires v < x.n && Local(x, kc, v, child) && Edge(x, kp, y, kc, v, child) && x.g > 0
    requires hit == Wake(child)
    ensures Local(x, kc, v, hit) && Edge(x, kp, z, kc, v, hit)
  {
    KidsTail(x.n, WakeCount(x.n, x.t), p, y.pc.todo);
  }

  // ---------- Entering and leaving the task body ----------

  lemma NotifyDoneLocal(x: Ctx, k: Plan, v: nat, y: Thread, z: Thread)
    requires CtxOk(x) && Local(x, k, v, y) && y.pc == Notify([]) && v < WakeCount(x.n, x.t)
    requires z == y.(pc := EnterBody(x.n, x.t, v))
    ensures Local(x, k, v, z)
  {
    UpIsTiled(x.n, WakeCount(x.n, x.t), v);
  }

  lemma NotifyDoneParent(x: Ctx, kp: Plan, p: nat, y: Thread, z: Thread, kc: Plan, v: nat, child: Thread)
    requires CtxOk(x) && Local(x, kp, p, y) && y.pc == Notify([]) && p < WakeCount(x.n, x.t)
    requires z == y.(pc := EnterBody(x.n, x.t, p))
    requires IsParent(x.n, v, p) && Edge(x, kp, y, kc, v, child)
    ensures Edge(x, kp, z, kc, v, child)
  {
    UpIsTiled(x.n, WakeCount(x.n, x.t), p);
    assert v < WakeCount(x.n, x.t) ==> IsKid(x.n, WakeCount(x.n, x.t), p, v);
  }

  lemma ExecuteDoneLocal(x: Ctx, k: Plan, v: nat, y: Thread, z: Thread)
    requires CtxOk(x) && Local(x, k, v, y) && y.pc == Execute(x.t.rounds)
    requires z == y.(pc := AwaitKids(Up(x.n, WakeCount(x.n, x.t), v)),
                     slot := if x.t.reduces then Some(x.t.result(v)) else y.slot, ran := y.ran + [y.task])
    ensures Local(x, k, v, z) && !Done(k, z)
  {
    UpIsTiled(x.n, WakeCount(x.n, x.t), v);
  }

  lemma ExecuteDoneParent(x: Ctx, kp: Plan, p: nat, y: Thread, z: Thread, kc: Plan, v: nat, child: Thread)
    requires CtxOk(x) && Local(x, kp, p, y) && y.pc == Execute(x.t.rounds)
    requires z.pc == AwaitKids(Up(x.n, WakeCount(x.n, x.t), p)) && z.completed == y.completed
    requires IsParent(x.n, v, p) && Edge(x, kp, y, kc, v, child)
    ensures Edge(x, kp, z, kc, v, child)
  {
    UpIsTiled(x.n, WakeCount(x.n, x.t), p);
    assert v < WakeCount(x.n, x.t) ==> IsKid(x.n, WakeCount(x.n, x.t), p, v);
  }

  lemma ExecuteRoundLocal(x: Ctx, k: Plan, v: nat, y: Thread, z: Thread)
    requires CtxOk(x) && Local(x, k, v, y) && y.pc.Execute? && y.pc.r < x.t.rounds
    requires z == y.(pc := Collect(y.pc.r, Up(x.n, x.t.concurrency, v)), acc := x.t.contribution(y.pc.r)(v)(y.sums))
    ensures Local(x, k, v, z)
  {
    UpIsTiled(x.n, x.t.concurrency, v);
    OwnContribution(x, y.sums, y.pc.r, v);
    hide AccIs, Common, Tiles, Kids;
  }

  /** What the earlier calls returned is what they should return, and so is what follows from it. */
  lemma {:induction false} SumsAreReductions(x: Ctx, sums: seq<Value>, k: nat)
    requires x.t.concurrency > 0 && SumsAre(x, sums, k) && AssociativeUpTo(x.t, k)
    ensures sums == Reductions(x.t, k)
    decreases k
  {
    if k > 0 {
      SumsAreReductions(x, sums[..k - 1], k - 1);
      assert AccIs(x, k - 1, sums[k - 1], 0, x.t.concurrency);
      assert sums == sums[..k - 1] + [sums[k - 1]];
    }
  }

  lemma OwnContribution(x: Ctx, sums: seq<Value>, r: nat, v: nat)
    requires v < x.t.concurrency && SumsAre(x, sums, r)
    ensures AccIs(x, r, x.t.contribution(r)(v)(sums), v, v + 1)
  {
    if AssociativeUpTo(x.t, r + 1) {
      SumsAreReductions(x, sums, r);
    }
  }

  lemma ExecuteRoundParent(x: Ctx, kp: Plan, p: nat, y: Thread, z: Thread, kc: Plan, v: nat, child: Thread)
    requires CtxOk(x) && Local(x, kp, p, y) && y.pc.Execute? && y.pc.r < x.t.rounds
    requires z.pc == Collect(y.pc.r, Up(x.n, x.t.concurrency, p)) && z.completed == y.completed
    requires IsParent(x.n, v, p) && Edge(x, kp, y, kc, v, child)
    ensures Edge(x, kp, z, kc, v, child)
  {
    UpIsTiled(x.n, x.t.concurrency, p);
    assert v < x.t.concurrency ==> IsKid(x.n, x.t.concurrency, p, v);
  }

  // ---------- Collecting ----------

  lemma CollectDoneLocal(x: Ctx, k: Plan, v: nat, y: Thread, z: Thread)
    requires CtxOk(x) && Local(x, k, v, y) && y.pc.Collect? && y.pc.todo == []
    requires z == y.(pc := if v > 0 then Publish(y.pc.r) else Give(y.pc.r, Down(x.n, x.t.concurrency, v)))
    ensures Local(x, k, v, z)
  {
    DownIsKids(x.n, x.t.concurrency, v);
    if v == 0 {
      assert End(x.n, x.t.concurrency, 0) == x.t.concurrency;
    }
  }

  lemma CollectDoneParent(x: Ctx, kp: Plan, p: nat, y: Thread, z: Thread, kc: Plan, v: nat, child: Thread)
    requires CtxOk(x) && Local(x, kp, p, y) && y.pc.Collect? && y.pc.todo == []
    requires z == y.(pc := if p > 0 then Publish(y.pc.r) else Give(y.pc.r, Down(x.n, x.t.concurrency, p)))
    requires IsParent(x.n, v, p) && Edge(x, kp, y, kc, v, child)
    ensures Edge(x, kp, z, kc, v, child)
  {
    DownIsKids(x.n, x.t.concurrency, p);
    assert v < x.t.concurrency ==> IsKid(x.n, x.t.concurrency, p, v);
  }

  lemma CollectSeeLocal(x: Ctx, k: Plan, v: nat, y: Thread, z: Thread)
    requires Local(x, k, v, y) && y.pc.Collect? && y.pc.todo != []
    requires z == y.(pc := Take(y.pc.r, y.pc.todo))
    ensures Local(x, k, v, z)
  {
  }

  lemma CollectSeeParent(x: Ctx, kp: Plan, p: nat, y: Thread, z: Thread, kc: Plan, v: nat, child: Thread)
    requires Local(x, kp, p, y) && y.pc.Collect? && y.pc.todo != []
    requires z.pc == Take(y.pc.r, y.pc.todo) && z.completed == y.completed
    requires Local(x, kc, v, child) && Edge(x, kp, y, kc, v, child)
    requires v == y.pc.todo[0] ==> child.upward != child.downward
    ensures Edge(x, kp, z, kc, v, child)
  {
  }

  /** A child that its parent has heard of waits in the parent's round with its subtree's partial result. */
  lemma HeardChild(x: Ctx, kp: Plan, p: nat, y: Thread, kc: Plan, v: nat, child: Thread)
    requires CtxOk(x) && Local(x, kp, p, y) && kp.live && 0 < v < x.t.concurrency && Heard(y, v)
    requires Local(x, kc, v, child) && Edge(x, kp, y, kc, v, child)
    ensures child.pc == Await(ReleasedRounds(x, kp, y, v)) && child.published
    ensures Synced(kc, v, child, child.pc.r + 1, child.pc.r)
  {
  }

  lemma TakeLocal(x: Ctx, k: Plan, v: nat, y: Thread, z: Thread, kc: Plan, child: Thread)
    requires CtxOk(x) && Local(x, k, v, y) && y.pc.Take?
    requires var u := y.pc.todo[0]; u < x.n && Local(x, kc, u, child) && Edge(x, k, y, kc, u, child)
    requires z == y.(pc := Collect(y.pc.r, y.pc.todo[1..]), acc := x.t.syncOp(y.pc.r)(y.acc, child.acc))
    ensures Local(x, k, v, z)
  {
    var c, u, r := x.t.concurrency, y.pc.todo[0], y.pc.r;
    KidTilesTail(x.n, c, v, y.pc.todo);
    HeardChild(x, k, v, y, kc, u, child);
    AccsJoin(x, r, y.acc, child.acc, v, u, End(x.n, c, u));
  }

  lemma AccsJoin(x: Ctx, r: nat, acc: Value, other: Value, a: nat, b: nat, c: nat)
    requires a < b < c && x.t.concurrency > 0 && AccIs(x, r, acc, a, b) && AccIs(x, r, other, b, c)
    ensures AccIs(x, r, x.t.syncOp(r)(acc, other), a, c)
  {
    if AssociativeUpTo(x.t, r + 1) {
      assert Associative(x.t.syncOp(r));
      FoldJoin(x.t.syncOp(r), Contributions(x.t, r), a, b, c);
    }
  }

  lemma TakeParent(x: Ctx, kp: Plan, p: nat, y: Thread, z: Thread, kc: Plan, v: nat, child: Thread)
    requires Local(x, kp, p, y) && y.pc.Take?
    requires z.pc == Collect(y.pc.r, y.pc.todo[1..]) && z.completed == y.completed
    requires v < x.n && Edge(x, kp, y, kc, v, child)
    ensures Edge(x, kp, z, kc, v, child)
  {
    KidsTail(x.n, x.t.concurrency, p, y.pc.todo);
  }

  // ---------- Reporting to the parent ----------

  lemma PublishLocal(x: Ctx, k: Plan, v: nat, y: Thread, z: Thread)
    requires Local(x, k, v, y) && y.pc.Publish?
    requires z == y.(pc := Raise(y.pc.r), published := true)
    ensures Local(x, k, v, z)
  {
  }

  lemma RaiseLocal(x: Ctx, k: Plan, v: nat, y: Thread, z: Thread)
    requires Local(x, k, v, y) && y.pc.Raise?
    requires z == y.(pc := Await(y.pc.r), upward := !y.upward, arrived := y.arrived + 1)
    ensures Local(x, k, v, z)
  {
  }

  lemma RaiseChild(x: Ctx, kp: Plan, p: Thread, kc: Plan, v: nat, y: Thread, z: Thread)
    requires Local(x, kc, v, y) && y.pc.Raise? && Edge(x, kp, p, kc, v, y)
    requires z == y.(pc := Await(y.pc.r), upward := !y.upward, arrived := y.arrived + 1)
    requires BeingGiven(p, v) ==> v in p.pc.todo
    ensures Edge(x, kp, p, kc, v, z)
  {
    assert y.arrived == y.released;
    assert !Heard(p, v);
  }

  lemma AwaitLocal(x: Ctx, k: Plan, v: nat, y: Thread, z: Thread)
    requires Local(x, k, v, y) && y.pc.Await? && y.downward == y.upward
    requires z == y.(pc := Retract(y.pc.r))
    ensures Local(x, k, v, z)
  {
  }

  lemma RetractLocal(x: Ctx, k: Plan, v: nat, y: Thread, z: Thread)
    requires CtxOk(x) && Local(x, k, v, y) && y.pc.Retract?
    requires z == y.(pc := Give(y.pc.r, Down(x.n, x.t.concurrency, v)), published := false)
    ensures Local(x, k, v, z)
  {
    DownIsKids(x.n, x.t.concurrency, v);
  }

  /** Between collecting and broadcasting nothing changes for the children. */
  lemma ReportParent(x: Ctx, kp: Plan, p: nat, y: Thread, z: Thread, kc: Plan, v: nat, child: Thread)
    requires CtxOk(x) && p < x.n && z.completed == y.completed
    requires (y.pc.Publish? && z.pc == Raise(y.pc.r)) || (y.pc.Raise? && z.pc == Await(y.pc.r)) ||
             (y.pc.Await? && z.pc == Retract(y.pc.r)) ||
             (y.pc.Retract? && z.pc == Give(y.pc.r, Down(x.n, x.t.concurrency, p)))
    requires IsParent(x.n, v, p) && Edge(x, kp, y, kc, v, child)
    ensures Edge(x, kp, z, kc, v, child)
  {
    DownIsKids(x.n, x.t.concurrency, p);
    assert v < x.t.concurrency ==> IsKid(x.n, x.t.concurrency, p, v);
  }

  // ---------- Broadcasting ----------

  lemma GiveLocal(x: Ctx, k: Plan, v: nat, y: Thread, z: Thread)
    requires Local(x, k, v, y) && y.pc.Give? && y.pc.todo != []
    requires z == y.(pc := Lower(y.pc.r, y.pc.todo))
    ensures Local(x, k, v, z)
  {
  }

  lemma GiveParent(x: Ctx, kp: Plan, p: nat, y: Thread, z: Thread, kc: Plan, v: nat, child: Thread)
    requires y.pc.Give? && y.pc.todo != [] && v != y.pc.todo[0]
    requires z.pc == Lower(y.pc.r, y.pc.todo) && z.completed == y.completed
    requires v < x.n && Edge(x, kp, y, kc, v, child)
    ensures Edge(x, kp, z, kc, v, child)
  {
  }

  lemma GiveTarget(x: Ctx, kp: Plan, p: nat, y: Thread, z: Thread, kc: Plan, v: nat, child: Thread, hit: Thread)
    requires CtxOk(x) && Local(x, kp, p, y) && y.pc.Give? && y.pc.todo != [] && v == y.pc.todo[0]
    requires z == y.(pc := Lower(y.pc.r, y.pc.todo))
    requires v < x.n && Local(x, kc, v, child) && Edge(x, kp, y, kc, v, child)
    requires hit == child.(acc := y.acc)
    ensures Local(x, kc, v, hit) && Edge(x, kp, z, kc, v, hit)
  {
    assert IsKid(x.n, x.t.concurrency, p, v);
    HeardChild(x, kp, p, y, kc, v, child);
  }

  lemma LowerLocal(x: Ctx, k: Plan, v: nat, y: Thread, z: Thread)
    requires Local(x, k, v, y) && y.pc.Lower?
    requires z == y.(pc := Give(y.pc.r, y.pc.todo[1..]))
    ensures Local(x, k, v, z)
  {
    KidsTail(x.n, x.t.concurrency, v, y.pc.todo);
  }

  lemma LowerParent(x: Ctx, kp: Plan, p: nat, y: Thread, z: Thread, kc: Plan, v: nat, child: Thread)
    requires Local(x, kp, p, y) && y.pc.Lower? && v != y.pc.todo[0]
    requires z.pc == Give(y.pc.r, y.pc.todo[1..]) && z.completed == y.completed
    requires v < x.n && Edge(x, kp, y, kc, v, child)
    ensures Edge(x, kp, z, kc, v, child)
  {
    KidsTail(x.n, x.t.concurrency, p, y.pc.todo);
  }

  ghost predicate LowerHit(child: Thread, hit: Thread) {
    hit == child.(downward := !child.downward, released := child.released + 1)
  }

  lemma LowerTargetLocal(x: Ctx, k: Plan, v: nat, y: Thread, z: Thread)
    requires Local(x, k, v, y) && y.pc.Await? && y.released < y.arrived && LowerHit(y, z)
    requires v < x.t.concurrency && AccIs(x, y.pc.r, y.acc, 0, x.t.concurrency)
    ensures Local(x, k, v, z)
  {
  }

  lemma LowerTarget(x: Ctx, kp: Plan, p: nat, y: Thread, z: Thread, kc: Plan, v: nat, child: Thread, hit: Thread)
    requires CtxOk(x) && Local(x, kp, p, y) && y.pc.Lower? && v == y.pc.todo[0]
    requires z == y.(pc := Give(y.pc.r, y.pc.todo[1..]))
    requires v < x.n && Local(x, kc, v, child) && Edge(x, kp, y, kc, v, child) && LowerHit(child, hit)
    ensures Local(x, kc, v, hit) && Edge(x, kp, z, kc, v, hit)
  {
    KidsTail(x.n, x.t.concurrency, p, y.pc.todo);
    assert IsKid(x.n, x.t.concurrency, p, v);
    HeardChild(x, kp, p, y, kc, v, child);
    LowerTargetLocal(x, kc, v, child, hit);
  }

  lemma GiveDoneLocal(x: Ctx, k: Plan, v: nat, y: Thread, z: Thread)
    requires Local(x, k, v, y) && y.pc.Give? && y.pc.todo == []
    requires z == y.(pc := Execute(y.pc.r + 1), sums := y.sums + [y.acc])
    ensures Local(x, k, v, z)
  {
  }

  lemma GiveDoneParent(x: Ctx, kp: Plan, p: nat, y: Thread, z: Thread, kc: Plan, v: nat, child: Thread)
    requires y.pc.Give? && y.pc.todo == [] && z.pc == Execute(y.pc.r + 1) && z.completed == y.completed
    requires v < x.n && Edge(x, kp, y, kc, v, child)
    ensures Edge(x, kp, z, kc, v, child)
  {
  }

  // ---------- Waiting for the children to complete ----------

  lemma NotLiveIsIdle(x: Ctx, k: Plan, v: nat, y: Thread)
    requires Local(x, k, v, y) && !k.live
    ensures (y.pc == Parked || y.pc == Unborn) && Idle(x, k, y)
  {
  }

  lemma SameSenseMeansCompleted(y: Thread)
    requires SensesMatch(y) && y.outgoing == y.incoming
    ensures y.completed == y.woken
  {
  }

  /** A wait for a child ends only when the child has completed, or when the call does not wake it at all. */
  lemma AwaitedCompletes(x: Ctx, kp: Plan, p: nat, y: Thread, kc: Plan, v: nat, child: Thread)
    requires CtxOk(x) && Local(x, kp, p, y) && y.pc.AwaitKids?
    requires v < x.n && Local(x, kc, v, child) && Edge(x, kp, y, kc, v, child) && child.outgoing == child.incoming
    requires x.g == 0 && kc.live ==> child.woken == kc.wakes + 1
    ensures child.completed == kc.wakes + (if kc.live then 1 else 0)
  {
    SameSenseMeansCompleted(child);
    if !kc.live {
      NotLiveIsIdle(x, kc, v, child);
    }
  }

  lemma AwaitSeeLocal(x: Ctx, k: Plan, v: nat, y: Thread, z: Thread)
    requires Local(x, k, v, y) && y.pc.AwaitKids?
    requires z == y.(pc := if y.pc.todo == [] then Signal else Merge(y.pc.todo))
    ensures Local(x, k, v, z)
  {
  }

  lemma AwaitSeeParent(x: Ctx, kp: Plan, p: nat, y: Thread, z: Thread, kc: Plan, v: nat, child: Thread)
    requires y.pc.AwaitKids? && z == y.(pc := if y.pc.todo == [] then Signal else Merge(y.pc.todo))
    requires v < x.n && Edge(x, kp, y, kc, v, child)
    requires y.pc.todo != [] && y.pc.todo[0] == v ==> child.completed == kc.wakes + (if kc.live then 1 else 0)
    ensures Edge(x, kp, z, kc, v, child)
  {
  }

  // ---------- Merging ----------

  ghost predicate MergeStep(x: Ctx, y: Thread, z: Thread, child: Thread, hit: Thread)
    requires y.pc.Merge? && y.pc.todo != []
  {
    if x.t.reduces then
      y.slot.Some? && child.slot.Some? &&
      z == y.(pc := AwaitKids(y.pc.todo[1..]), slot := Some(x.t.reduceOp(y.slot.value, child.slot.value))) &&
      hit == child.(slot := None)
    else
      z == y.(pc := AwaitKids(y.pc.todo[1..])) && hit == child
  }

  lemma MergeLocal(x: Ctx, k: Plan, v: nat, y: Thread, z: Thread, child: Thread, hit: Thread)
    requires Local(x, k, v, y) && y.pc.Merge? && MergeStep(x, y, z, child, hit)
    requires var u, w := y.pc.todo[0], WakeCount(x.n, x.t);
             Reduces(x) ==> u < x.n && u < End(x.n, w, u) && SlotIs(x, child.slot, u, End(x.n, w, u))
    ensures Local(x, k, v, z)
  {
    hide SlotIs, SumsAre, KidTiles, Local, SensesMatch, Reduces, MergeStep;
    MergeFacts(x, k, v, y);
    var w, u := WakeCount(x.n, x.t), y.pc.todo[0];
    KidTilesTail(x.n, w, v, y.pc.todo);
    MergeKeeps(x, k, v, y, z, child, hit);
    if Reduces(x) {
      SlotsJoin(x, y.slot, child.slot, v, u, End(x.n, w, u));
      MergedSlot(x, y, z, child, hit);
    }
    AwaitKidsLocal(x, k, v, z);
  }

  lemma MergeFacts(x: Ctx, k: Plan, v: nat, y: Thread)
    requires Local(x, k, v, y) && y.pc.Merge?
    ensures v < x.n && y.pc.todo != [] && v < y.pc.todo[0] && KidTiles(x.n, WakeCount(x.n, x.t), v, y.pc.todo)
    ensures Common(y) && Busy(x, k, y) && HasRun(x, k, v, y)
    ensures Reduces(x) ==> SlotIs(x, y.slot, v, y.pc.todo[0])
  {
    hide SlotIs, SumsAre, SensesMatch;
  }

  lemma MergeKeeps(x: Ctx, k: Plan, v: nat, y: Thread, z: Thread, child: Thread, hit: Thread)
    requires Common(y) && Busy(x, k, y) && HasRun(x, k, v, y) && y.pc.Merge? && y.pc.todo != [] && MergeStep(x, y, z, child, hit)
    ensures z.pc == AwaitKids(y.pc.todo[1..]) && Common(z) && Busy(x, k, z) && HasRun(x, k, v, z)
  {
    hide SumsAre;
  }

  lemma MergedSlot(x: Ctx, y: Thread, z: Thread, child: Thread, hit: Thread)
    requires Reduces(x) && y.pc.Merge? && y.pc.todo != [] && MergeStep(x, y, z, child, hit)
    ensures y.slot.Some? && child.slot.Some? && z.slot == Some(x.t.reduceOp(y.slot.value, child.slot.value))
  {
  }

  lemma AwaitKidsLocal(x: Ctx, k: Plan, v: nat, z: Thread)
    requires v < x.n && z.pc.AwaitKids? && Common(z) && Busy(x, k, z) && HasRun(x, k, v, z)
    requires var w := WakeCount(x.n, x.t);
             KidTiles(x.n, w, v, z.pc.todo) && (Reduces(x) ==> SlotIs(x, z.slot, v, NextThread(z.pc.todo, End(x.n, w, v))))
    ensures Local(x, k, v, z)
  {
    hide SlotIs, SumsAre, Common, Busy, HasRun, Reduces;
  }

  lemma SlotsJoin(x: Ctx, slot: Option<Value>, other: Option<Value>, a: nat, b: nat, c: nat)
    requires a < b < c && SlotIs(x, slot, a, b) && SlotIs(x, other, b, c)
    ensures SlotIs(x, Some(x.t.reduceOp(slot.value, other.value)), a, c)
  {
    if Associative(x.t.reduceOp) {
      FoldJoin(x.t.reduceOp, x.t.result, a, b, c);
    }
  }

  lemma MergeableChild(x: Ctx, kp: Plan, p: nat, y: Thread, kc: Plan, v: nat, child: Thread)
    requires CtxOk(x) && Local(x, kp, p, y) && y.pc.Merge? && v == y.pc.todo[0]
    requires v < x.n && Local(x, kc, v, child) && Edge(x, kp, y, kc, v, child)
    requires Reduces(x) && child.slot.Some?
    ensures v < End(x.n, WakeCount(x.n, x.t), v) && SlotIs(x, child.slot, v, End(x.n, WakeCount(x.n, x.t), v))
  {
    assert IsKid(x.n, WakeCount(x.n, x.t), p, v);
    if !kc.live {
      NotLiveIsIdle(x, kc, v, child);
    }
  }

  lemma MergeParent(x: Ctx, kp: Plan, p: nat, y: Thread, z: Thread, kc: Plan, v: nat, child: Thread)
    requires Local(x, kp, p, y) && y.pc.Merge? && v != y.pc.todo[0]
    requires z.pc == AwaitKids(y.pc.todo[1..]) && z.completed == y.completed
    requires v < x.n && Edge(x, kp, y, kc, v, child)
    ensures Edge(x, kp, z, kc, v, child)
  {
    KidsTail(x.n, WakeCount(x.n, x.t), p, y.pc.todo);
  }

  lemma MergingParent(x: Ctx, k: Plan, p: nat, y: Thread)
    requires Local(x, k, p, y) && y.pc.Merge?
    ensures Kids(x.n, WakeCount(x.n, x.t), p, y.pc.todo) && y.pc.todo != [] && y.completed == k.wakes
  {
  }

  /** A thread that is through with the current call does not look at its slot any more. */
  lemma CompletedKeepsLocal(x: Ctx, k: Plan, v: nat, y: Thread, z: Thread)
    requires Local(x, k, v, y) && z == y.(slot := None)
    requires y.completed == k.wakes + (if k.live then 1 else 0)
    ensures Local(x, k, v, z)
  {
  }

  lemma MergeTargetEdge(x: Ctx, kp: Plan, p: nat, y: Thread, z: Thread, kc: Plan, v: nat, child: Thread, hit: Thread)
    requires y.pc.Merge? && Kids(x.n, WakeCount(x.n, x.t), p, y.pc.todo)
    requires y.pc.todo != [] && v == y.pc.todo[0] && MergeStep(x, y, z, child, hit)
    requires v < x.n && Edge(x, kp, y, kc, v, child) && y.completed == kp.wakes
    requires x.t.reduces ==> v < x.t.concurrency && kc.live
    ensures Edge(x, kp, z, kc, v, hit)
  {
    KidsTail(x.n, WakeCount(x.n, x.t), p, y.pc.todo);
  }

  lemma NotLiveHasNoSlot(x: Ctx, k: Plan, v: nat, y: Thread)
    requires Local(x, k, v, y) && !k.live
    ensures y.slot == None
  {
    NotLiveIsIdle(x, k, v, y);
  }

  lemma MergedChildCompleted(x: Ctx, kp: Plan, p: nat, y: Thread, kc: Plan, v: nat, child: Thread)
    requires v < WakeCount(x.n, x.t) && v < x.n && Edge(x, kp, y, kc, v, child)
    requires y.pc.Merge? && y.pc.todo != [] && v == y.pc.todo[0]
    ensures child.completed == kc.wakes + (if kc.live then 1 else 0)
  {
  }

  lemma MergeTarget(x: Ctx, kp: Plan, p: nat, y: Thread, z: Thread, kc: Plan, v: nat, child: Thread, hit: Thread)
    requires Local(x, kp, p, y) && y.pc.Merge? && y.pc.todo != [] && v == y.pc.todo[0] && MergeStep(x, y, z, child, hit)
    requires v < x.n && Local(x, kc, v, child) && Edge(x, kp, y, kc, v, child)
    requires x.t.reduces ==> v < x.t.concurrency
    ensures Local(x, kc, v, hit) && Edge(x, kp, z, kc, v, hit)
  {
    MergingParent(x, kp, p, y);
    assert IsKid(x.n, WakeCount(x.n, x.t), p, v);
    hide Local, Edge, Kids;
    if x.t.reduces && !kc.live {
      NotLiveHasNoSlot(x, kc, v, child);
      assert false;
    }
    MergeTargetEdge(x, kp, p, y, z, kc, v, child, hit);
    MergedChildCompleted(x, kp, p, y, kc, v, child);
    if x.t.reduces {
      CompletedKeepsLocal(x, kc, v, child, hit);
    }
  }

  // ---------- Completing ----------

  ghost predicate SignalStep(y: Thread, z: Thread) {
    z == y.(pc := if y.joinRequested then BeforeJoin else Parked,
            outgoing := !y.outgoing, completed := y.completed + 1,
            pass := if y.pass < INT_MAX then y.pass + 1 else y.pass)
  }

  lemma SignalLocal(x: Ctx, k: Plan, v: nat, y: Thread, z: Thread)
    requires Local(x, k, v, y) && y.pc.Signal? && SignalStep(y, z)
    ensures Local(x, k, v, z)
  {
  }

  lemma SignalParent(x: Ctx, kp: Plan, p: nat, y: Thread, z: Thread, kc: Plan, v: nat, child: Thread)
    requires Local(x, kp, p, y) && y.pc.Signal? && SignalStep(y, z)
    requires v < x.n && Edge(x, kp, y, kc, v, child)
    ensures Edge(x, kp, z, kc, v, child)
  {
  }

  lemma SignalChild(x: Ctx, kp: Plan, p: Thread, kc: Plan, v: nat, y: Thread, z: Thread)
    requires Local(x, kc, v, y) && y.pc.Signal? && SignalStep(y, z) && Edge(x, kp, p, kc, v, y)
    ensures Edge(x, kp, p, kc, v, z)
  {
    assert !Awaited(kp, p, v);
  }

  lemma SignalRoot(x: Ctx, main: MainPc, k: Plan, y: Thread, z: Thread)
    requires Local(x, k, 0, y) && y.pc.Signal? && SignalStep(y, z) && RootEdge(x, main, k, y)
    ensures RootEdge(x, main, k, z)
  {
  }

  // ---------- Joining ----------

  lemma BeforeJoinLocal(x: Ctx, k: Plan, v: nat, y: Thread, z: Thread)
    requires CtxOk(x) && Local(x, k, v, y) && y.pc.BeforeJoin?
    requires z == y.(pc := Join(Up(x.n, WakeCount(x.n, x.t), v)))
    ensures Local(x, k, v, z)
  {
    UpIsTiled(x.n, WakeCount(x.n, x.t), v);
  }

  lemma BeforeJoinParent(x: Ctx, kp: Plan, p: nat, y: Thread, z: Thread, kc: Plan, v: nat, child: Thread)
    requires CtxOk(x) && Local(x, kp, p, y) && y.pc.BeforeJoin?
    requires z.pc == Join(Up(x.n, WakeCount(x.n, x.t), p)) && z.completed == y.completed
    requires IsParent(x.n, v, p) && Edge(x, kp, y, kc, v, child)
    ensures Edge(x, kp, z, kc, v, child)
  {
    UpIsTiled(x.n, WakeCount(x.n, x.t), p);
    assert IsKid(x.n, WakeCount(x.n, x.t), p, v);
  }

  lemma JoinLocal(x: Ctx, k: Plan, v: nat, y: Thread, z: Thread)
    requires Local(x, k, v, y) && y.pc.Join?
    requires z == y.(pc := if y.pc.todo == [] then Exited else Join(y.pc.todo[1..]))
    ensures Local(x, k, v, z)
  {
    if y.pc.todo != [] {
      KidsTail(x.n, WakeCount(x.n, x.t), v, y.pc.todo);
    }
  }

  lemma JoinParent(x: Ctx, kp: Plan, p: nat, y: Thread, z: Thread, kc: Plan, v: nat, child: Thread)
    requires Local(x, kp, p, y) && y.pc.Join? && (y.pc.todo != [] ==> v != y.pc.todo[0])
    requires z == y.(pc := if y.pc.todo == [] then Exited else Join(y.pc.todo[1..]))
    requires v < x.n && Edge(x, kp, y, kc, v, child)
    ensures Edge(x, kp, z, kc, v, child)
  {
    JoiningParent(x, kp, p, y);
    hide Local, AccIs, SlotIs, Reduces;
    if y.pc.todo != [] {
      KidsTail(x.n, WakeCount(x.n, x.t), p, y.pc.todo);
    }
  }

  lemma JoiningParent(x: Ctx, k: Plan, p: nat, y: Thread)
    requires Local(x, k, p, y) && y.pc.Join?
    ensures Kids(x.n, WakeCount(x.n, x.t), p, y.pc.todo) && Done(k, y) && x.t.joinRequested
  {
    hide SensesMatch, SumsAre;
  }

  lemma JoinTarget(x: Ctx, kp: Plan, p: nat, y: Thread, z: Thread, kc: Plan, v: nat, child: Thread, hit: Thread)
    requires Local(x, kp, p, y) && y.pc.Join? && y.pc.todo != [] && v == y.pc.todo[0]
    requires z == y.(pc := Join(y.pc.todo[1..]))
    requires v < x.n && Local(x, kc, v, child) && Edge(x, kp, y, kc, v, child)
    requires hit == child.(handle := Joined) && IsRunning(child) && child.pc.Exited?
    ensures Local(x, kc, v, hit) && Edge(x, kp, z, kc, v, hit)
  {
    KidsTail(x.n, WakeCount(x.n, x.t), p, y.pc.todo);
  }
}
