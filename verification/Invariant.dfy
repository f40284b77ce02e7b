/** The invariant of a thread squad with nested strides.

    `Local` ties what a thread does to its own flags and counters, `Edge` ties a thread to its parent in the tree,
    `RootEdge` ties thread 0 to the main thread. All three speak about values, so that a step leaves alone what it
    does not touch. */
module Invariant {
  import opened Basics
  import opened Tree
  import opened TreeCover
  import opened Squad
  import opened History

  /** The call in progress: its number `g` and its task. */
  datatype Ctx = Ctx(n: nat, t: Task, g: nat)

  /** How many threads the forking call has woken, created and recorded so far. */
  datatype Forking = Forking(woken: nat, created: nat, recorded: nat)

  /** What the calls before imply for a thread, and whether the call in progress wakes it. */
  datatype Plan = Plan(live: bool, wakes: nat, syncs: nat, ran: seq<nat>)

  ghost function PlanOf(n: nat, calls: seq<Task>, v: nat): Plan
    requires v < n && calls != []
  {
    Plan(Live(n, calls, v), Wakes(n, Earlier(calls), v), Syncs(n, Earlier(calls), v), Executed(n, Earlier(calls), v))
  }

  ghost predicate Odd(k: nat) {
    k % 2 == 1
  }

  /** The one-bit senses are the parities of the counters, and no wait can miss a toggle. */
  ghost predicate SensesMatch(x: Thread) {
    x.incoming == Odd(x.woken) && x.outgoing == Odd(x.completed) &&
    x.upward == Odd(x.arrived) && x.downward == Odd(x.released) &&
    x.completed <= x.woken <= x.completed + 1 &&
    x.released <= x.arrived <= x.released + 1
  }

  ghost predicate Common(x: Thread) {
    SensesMatch(x) && x.pass == (if x.completed < INT_MAX then x.completed else INT_MAX) &&
    (x.pc == Unborn ==> x.handle == NotStarted) && (x.handle == Joined ==> x.pc == Exited)
  }

  // ---------- Values ----------

  ghost predicate Reduces(x: Ctx) {
    x.t.reduces && WakeCount(x.n, x.t) == x.t.concurrency
  }

  ghost predicate SlotIs(x: Ctx, slot: Option<Value>, a: nat, b: nat)
    requires a < b
  {
    slot.Some? && (Associative(x.t.reduceOp) ==> slot.value == Fold(x.t.reduceOp, x.t.result, a, b))
  }

  ghost predicate AccIs(x: Ctx, r: nat, acc: Value, a: nat, b: nat)
    requires a < b && x.t.concurrency > 0
  {
    AssociativeUpTo(x.t, r + 1) ==> acc == Fold(x.t.syncOp(r), Contributions(x.t, r), a, b)
  }

  ghost predicate SumsAre(x: Ctx, sums: seq<Value>, k: nat)
    requires x.t.concurrency > 0
  {
    |sums| == k && forall r :: 0 <= r < k ==> AccIs(x, r, sums[r], 0, x.t.concurrency)
  }

  // ---------- Walks in progress ----------

  ghost predicate IsKid(n: nat, c: nat, v: nat, u: nat) {
    v < u < c && u < n && Parent(n, u) == v
  }

  ghost predicate Kids(n: nat, c: nat, v: nat, todo: seq<nat>) {
    NoDup(todo) && forall u :: u in todo ==> IsKid(n, c, v, u)
  }

  /** The first thread that the rest of an up-walk has not covered. */
  ghost function NextThread(todo: seq<nat>, end: nat): nat {
    if todo == [] then end else todo[0]
  }

  ghost predicate KidTiles(n: nat, c: nat, v: nat, todo: seq<nat>)
    requires v < n
  {
    Kids(n, c, v, todo) && v < NextThread(todo, End(n, c, v)) && v < c &&
    Tiles(n, c, todo, NextThread(todo, End(n, c, v)), End(n, c, v))
  }

  // ---------- One thread ----------

  ghost predicate NotYetRun(x: Ctx, k: Plan, y: Thread) {
    y.ran == k.ran && y.slot == None
  }

  ghost predicate Idle(x: Ctx, k: Plan, y: Thread) {
    y.completed == k.wakes && y.woken <= k.wakes + (if k.live then 1 else 0) &&
    y.arrived == y.released == k.syncs && !y.published && NotYetRun(x, k, y)
  }

  ghost predicate HasRun(x: Ctx, k: Plan, v: nat, y: Thread) {
    var c := x.t.concurrency;
    y.arrived == y.released == k.syncs + (if 0 < v < c then x.t.rounds else 0) && !y.published &&
    y.ran == k.ran + (if v < c then [x.g] else []) &&
    (v < c ==> SumsAre(x, y.sums, x.t.rounds))
  }

  ghost predicate HasCompleted(x: Ctx, k: Plan, v: nat, y: Thread) {
    k.live && y.completed == y.woken == k.wakes + 1 && HasRun(x, k, v, y)
  }

  ghost predicate Busy(x: Ctx, k: Plan, y: Thread) {
    k.live && y.completed == k.wakes && y.woken == k.wakes + 1 &&
    y.task == x.g && y.joinRequested == x.t.joinRequested
  }

  /** `a` arrivals and `b` releases in the current call; the root has no flags of its own to toggle. */
  ghost predicate Synced(k: Plan, v: nat, y: Thread, a: nat, b: nat) {
    if v > 0 then y.arrived == k.syncs + a && y.released == k.syncs + b
    else y.arrived == y.released == k.syncs
  }

  ghost predicate InRound(x: Ctx, k: Plan, v: nat, y: Thread, r: nat) {
    Busy(x, k, y) && v < x.t.concurrency && NotYetRun(x, k, y) && r < x.t.rounds && SumsAre(x, y.sums, r)
  }

  ghost predicate Stage(x: Ctx, k: Plan, v: nat, y: Thread)
    requires v < x.n
  {
    var c := x.t.concurrency;
    var w := WakeCount(x.n, x.t);
    match y.pc
    case Unborn => Idle(x, k, y)
    case Parked => Idle(x, k, y) || (HasCompleted(x, k, v, y) && !x.t.joinRequested)
    case Notify(todo) =>
      Busy(x, k, y) && NotYetRun(x, k, y) && Synced(k, v, y, 0, 0) && !y.published && y.sums == [] &&
      Kids(x.n, w, v, todo) && (todo != [] ==> k.wakes > 0)
    case Execute(r) =>
      Busy(x, k, y) && v < c && NotYetRun(x, k, y) && r <= x.t.rounds && SumsAre(x, y.sums, r) &&
      Synced(k, v, y, r, r) && !y.published
    case Collect(r, todo) =>
      InRound(x, k, v, y, r) && Synced(k, v, y, r, r) && !y.published &&
      KidTiles(x.n, c, v, todo) && AccIs(x, r, y.acc, v, NextThread(todo, End(x.n, c, v)))
    case Take(r, todo) =>
      InRound(x, k, v, y, r) && Synced(k, v, y, r, r) && !y.published && todo != [] &&
      KidTiles(x.n, c, v, todo) && AccIs(x, r, y.acc, v, NextThread(todo, End(x.n, c, v)))
    case Publish(r) =>
      v > 0 && InRound(x, k, v, y, r) && Synced(k, v, y, r, r) && !y.published &&
      AccIs(x, r, y.acc, v, End(x.n, c, v))
    case Raise(r) =>
      v > 0 && InRound(x, k, v, y, r) && Synced(k, v, y, r, r) && y.published &&
      AccIs(x, r, y.acc, v, End(x.n, c, v))
    case Await(r) =>
      v > 0 && InRound(x, k, v, y, r) && y.published &&
      (Synced(k, v, y, r + 1, r) || (Synced(k, v, y, r + 1, r + 1) && AccIs(x, r, y.acc, 0, c)))
    case Retract(r) =>
      v > 0 && InRound(x, k, v, y, r) && Synced(k, v, y, r + 1, r + 1) && y.published && AccIs(x, r, y.acc, 0, c)
    case Give(r, todo) =>
      InRound(x, k, v, y, r) && Synced(k, v, y, r + 1, r + 1) && !y.published && AccIs(x, r, y.acc, 0, c) &&
      Kids(x.n, c, v, todo)
    case Lower(r, todo) =>
      InRound(x, k, v, y, r) && Synced(k, v, y, r + 1, r + 1) && !y.published && AccIs(x, r, y.acc, 0, c) &&
      Kids(x.n, c, v, todo) && todo != []
    case AwaitKids(todo) =>
      Busy(x, k, y) && HasRun(x, k, v, y) && KidTiles(x.n, w, v, todo) &&
      (Reduces(x) ==> SlotIs(x, y.slot, v, NextThread(todo, End(x.n, w, v))))
    case Merge(todo) =>
      Busy(x, k, y) && HasRun(x, k, v, y) && KidTiles(x.n, w, v, todo) && todo != [] &&
      (Reduces(x) ==> SlotIs(x, y.slot, v, NextThread(todo, End(x.n, w, v))))
    case Signal =>
      Busy(x, k, y) && HasRun(x, k, v, y) && v < End(x.n, w, v) &&
      (Reduces(x) ==> SlotIs(x, y.slot, v, End(x.n, w, v)))
    case BeforeJoin =>
      HasCompleted(x, k, v, y) && x.t.joinRequested && y.task == x.g
    case Join(todo) =>
      HasCompleted(x, k, v, y) && x.t.joinRequested && y.task == x.g && Kids(x.n, w, v, todo)
    case Exited =>
      HasCompleted(x, k, v, y) && x.t.joinRequested && y.task == x.g
  }

  ghost predicate Local(x: Ctx, k: Plan, v: nat, y: Thread) {
    v < x.n && Common(y) && Stage(x, k, v, y)
  }

  /** In the first call the main thread wakes and starts the threads one after another. */
  ghost predicate AtFork(f: Forking, g: nat, k: Plan, v: nat, y: Thread) {
    (g == 0 && k.live ==> (y.woken == k.wakes + 1 <==> v < f.woken)) &&
    (y.pc == Unborn <==> v >= f.created) && (y.handle == NotStarted <==> v >= f.recorded)
  }

  // ---------- A thread and its parent ----------

  ghost predicate Done(k: Plan, p: Thread) {
    k.live && p.completed == k.wakes + 1
  }

  /** The parent has toggled the child's incoming flag in the current call. */
  ghost predicate Notified(k: Plan, p: Thread, v: nat) {
    match p.pc
    case Unborn => false
    case Parked => Done(k, p)
    case Notify(todo) => v !in todo
    case _ => true
  }

  /** The parent has seen the child complete. */
  ghost predicate Awaited(k: Plan, p: Thread, v: nat) {
    match p.pc
    case AwaitKids(todo) => v !in todo
    case Merge(todo) => v !in todo || v == todo[0]
    case Signal => true
    case _ => Done(k, p)
  }

  ghost predicate Merged(k: Plan, p: Thread, v: nat) {
    match p.pc
    case AwaitKids(todo) => v !in todo
    case Merge(todo) => v !in todo
    case Signal => true
    case _ => Done(k, p)
  }

  /** How many rounds of the current call the parent has released to the child. */
  ghost function ReleasedRounds(x: Ctx, k: Plan, p: Thread, v: nat): nat {
    match p.pc
    case Unborn => 0
    case Parked => if Done(k, p) then x.t.rounds else 0
    case Notify(_) => 0
    case Execute(r) => r
    case Collect(r, _) => r
    case Take(r, _) => r
    case Publish(r) => r
    case Raise(r) => r
    case Await(r) => r
    case Retract(r) => r
    case Give(r, todo) => if v in todo then r else r + 1
    case Lower(r, todo) => if v in todo then r else r + 1
    case _ => x.t.rounds
  }

  /** The parent has seen the child arrive in a round that it has not released to the child yet. */
  ghost predicate Heard(p: Thread, v: nat) {
    match p.pc
    case Collect(_, todo) => v !in todo
    case Take(_, todo) => v !in todo || v == todo[0]
    case Publish(_) => true
    case Raise(_) => true
    case Await(_) => true
    case Retract(_) => true
    case Give(_, todo) => v in todo
    case Lower(_, todo) => v in todo
    case _ => false
  }

  ghost predicate BeingGiven(p: Thread, v: nat) {
    p.pc.Lower? && p.pc.todo != [] && p.pc.todo[0] == v
  }

  ghost predicate HasJoined(p: Thread, v: nat) {
    (p.pc.Join? && v !in p.pc.todo) || p.pc.Exited?
  }

  ghost predicate Edge(x: Ctx, kp: Plan, p: Thread, kc: Plan, v: nat, y: Thread)
    requires v < x.n
  {
    var c := x.t.concurrency;
    var w := WakeCount(x.n, x.t);
    // which calls reach the child
    (kc.live <==> v < w && (x.g == 0 || (kp.live && kp.wakes > 0))) && (v < w && x.g == 0 ==> kp.live) &&
    // waking and completion
    (x.g > 0 && kc.live ==> (y.woken == kc.wakes + 1 <==> Notified(kp, p, v))) &&
    (v < w && Awaited(kp, p, v) ==> y.completed == kc.wakes + (if kc.live then 1 else 0)) &&
    // synchronization
    (kp.live && v < c ==> y.released == kc.syncs + ReleasedRounds(x, kp, p, v)) &&
    (v < c && Heard(p, v) ==> y.arrived == y.released + 1) &&
    (y.pc.Await? && y.released < y.arrived && v < c ==>
       if BeingGiven(p, v) then AccIs(x, y.pc.r, y.acc, 0, c)
       else v < End(x.n, c, v) && AccIs(x, y.pc.r, y.acc, v, End(x.n, c, v))) &&
    // reduction slots
    (Reduces(x) && Done(kc, y) ==>
       if Merged(kp, p, v) then y.slot == None else v < End(x.n, w, v) && SlotIs(x, y.slot, v, End(x.n, w, v))) &&
    (x.t.reduces && v < w && Merged(kp, p, v) ==> v < c && kc.live) &&
    // joining
    (y.handle == Joined <==> HasJoined(p, v) && x.t.joinRequested)
  }

  // ---------- Thread 0 and the main thread ----------

  ghost predicate RootEdge(x: Ctx, main: MainPc, k: Plan, y: Thread)
    requires x.n >= 1
  {
    var w := WakeCount(x.n, x.t);
    k.live &&
    (x.g > 0 ==> (y.woken == k.wakes + 1 <==> main != NotifyRoot)) &&
    (main == JoinRoot || main == Release ==> y.completed == k.wakes + 1) &&
    (Reduces(x) && Done(k, y) ==> 0 < End(x.n, w, 0) && SlotIs(x, y.slot, 0, End(x.n, w, 0))) &&
    (y.handle == Joined <==> main == Release && x.t.joinRequested)
  }

  // ---------- The whole state ----------

  ghost predicate Active(s: State) {
    s.main != Ready && s.main != Gone
  }

  ghost function CtxOf(s: State): Ctx
    requires s.calls != []
  {
    Ctx(|s.th|, Current(s.calls), |s.calls| - 1)
  }

  ghost function ForkingOf(s: State): Forking {
    var n := |s.th|;
    match s.main
    case ForkWake(k) => Forking(k, 0, 0)
    case ForkStart(k) => Forking(n, k, k)
    case ForkRecord(k) => Forking(n, k + 1, k)
    case _ => Forking(n, n, n)
  }

  ghost function PlanAt(s: State, v: nat): Plan
    requires s.calls != [] && v < |s.th|
  {
    PlanOf(|s.th|, s.calls, v)
  }

  ghost predicate LocalAt(s: State, v: nat)
    requires s.calls != [] && v < |s.th|
  {
    Local(CtxOf(s), PlanAt(s, v), v, s.th[v]) && AtFork(ForkingOf(s), |s.calls| - 1, PlanAt(s, v), v, s.th[v])
  }

  ghost predicate EdgeAt(s: State, v: nat)
    requires s.calls != [] && 0 < v < |s.th|
  {
    var p := Parent(|s.th|, v);
    Edge(CtxOf(s), PlanAt(s, p), s.th[p], PlanAt(s, v), v, s.th[v])
  }

  ghost predicate CallOk(n: nat, t: Task) {
    t.concurrency <= n && WakeCount(n, t) >= 1 && (t.reduces ==> t.concurrency >= 1)
  }

  ghost predicate MainOk(s: State) {
    var n := |s.th|;
    var g := |s.calls| - 1;
    s.calls != [] && s.task == Some(g) &&
    (forall i :: 0 <= i < g ==> !s.calls[i].joinRequested) &&
    match s.main
    case ForkWake(k) => g == 0 && k <= WakeCount(n, s.calls[g])
    case ForkStart(k) => g == 0 && k <= n
    case ForkRecord(k) => g == 0 && k < n
    case NotifyRoot => g > 0
    case JoinRoot => s.calls[g].joinRequested
    case _ => true
  }

  ghost predicate Rest(n: nat, calls: seq<Task>, v: nat, y: Thread)
    requires v < n
  {
    Common(y) && y.woken == y.completed == Wakes(n, calls, v) && y.arrived == y.released == Syncs(n, calls, v) &&
    y.ran == Executed(n, calls, v) && !y.published
  }

  ghost predicate RestAt(s: State, v: nat)
    requires v < |s.th|
  {
    var y := s.th[v];
    Rest(|s.th|, s.calls, v, y) &&
    if s.calls == [] then y.pc == Unborn
    else if s.main == Ready then y.pc == Parked && y.handle == Started
    else y.pc == Exited && y.handle == Joined && Live(|s.th|, s.calls, v)
  }

  ghost predicate Inv(s: State) {
    var n := |s.th|;
    n >= 1 && NestedStrides(n) && (forall i :: 0 <= i < |s.calls| ==> CallOk(n, s.calls[i])) &&
    if Active(s) then
      MainOk(s) && RootEdge(CtxOf(s), s.main, PlanAt(s, 0), s.th[0]) &&
      (forall v :: 0 <= v < n ==> LocalAt(s, v)) &&
      (forall v :: 0 < v < n ==> EdgeAt(s, v))
    else
      s.task == None && (forall v :: 0 <= v < n ==> RestAt(s, v)) &&
      (s.main == Ready ==> forall i :: 0 <= i < |s.calls| ==> !s.calls[i].joinRequested) &&
      (forall i :: 0 <= i < |s.calls| - 1 ==> !s.calls[i].joinRequested)
  }
}
