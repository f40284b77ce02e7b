/** No call goes on for ever, in a squad of any size: every step uses up some of a cost that is fixed when the call begins. */
module Bounded {
  import opened Basics
  import opened Tree
  import opened TreeCover
  import opened Squad

  // ---------- Walks are short ----------

  lemma {:induction false} LevelIsShort(i: nat, substride: nat, last: nat)
    requires substride >= 1
    ensures |Level(i, substride, last)| <= if i < last then last - i else 0
    decreases if i < last then last - i else 0
  {
    if i < last {
      LevelIsShort(i + substride, substride, last);
    }
  }

  lemma {:induction false} WalkIsShort(t: nat, last: nat, stride: nat)
    requires stride >= 1
    ensures |UpWalk(t, last, stride)| <= if t < last then last - t else 0
    ensures |DownWalk(t, last, stride)| <= if t < last then last - t else 0
    decreases stride
  {
    if stride != 1 {
      var substride := NextSubstride(stride);
      LevelIsShort(t + substride, substride, last);
      WalkIsShort(t, Min(t + substride, last), substride);
    }
  }

  lemma WalksAreShort(n: nat, c: nat, t: nat)
    requires t < n
    ensures |Up(n, c, t)| <= n && |Down(n, c, t)| <= n
  {
    WalkIsShort(t, Min(t + NumSubthreads(n, t), c), NumSubthreads(n, t));
  }

  // ---------- Targets lie above ----------

  /** The targets that a thread has not dealt with yet. */
  ghost function Todo(pc: Pc): seq<nat> {
    match pc
    case Notify(todo) => todo
    case Collect(_, todo) => todo
    case Take(_, todo) => todo
    case Give(_, todo) => todo
    case Lower(_, todo) => todo
    case AwaitKids(todo) => todo
    case Merge(todo) => todo
    case Join(todo) => todo
    case _ => []
  }

  ghost predicate Above(i: nat, todo: seq<nat>) {
    forall u :: u in todo ==> i < u
  }

  ghost predicate Upwards(s: State) {
    forall i: nat :: i < |s.th| ==> Above(i, Todo(s.th[i].pc))
  }

  lemma WalksGoUpwards(n: nat, c: nat, t: nat)
    requires t < n
    ensures Above(t, Up(n, c, t)) && Above(t, Down(n, c, t))
  {
    WalkOrder(n, c, t);
  }

  lemma TailIsAbove(i: nat, todo: seq<nat>)
    requires Above(i, todo)
    ensures todo != [] ==> Above(i, todo[1..])
  {
    if todo != [] {
      assert todo == [todo[0]] + todo[1..];
      forall u | u in todo[1..] ensures i < u {
        assert u in [todo[0]] + todo[1..];
      }
    }
  }

  lemma OwnGoesUpwards(s: State, i: nat)
    requires i < |s.th| && Enabled(s, i) && Above(i, Todo(s.th[i].pc))
    ensures Above(i, Todo(Own(s, i).pc))
  {
    hide Own, Above;
    var pc := s.th[i].pc;
    if pc.Parked? || pc.BeforeJoin? || pc.Notify? || pc.Execute? {
      CallWalksGoUpwards(s, i);
    } else if pc.Collect? || pc.Retract? {
      SyncWalksGoUpwards(s, i);
    } else if pc.AwaitKids? || pc.Merge? || pc.Signal? || pc.Join? {
      CallTailsGoUpwards(s, i);
    } else {
      SyncTailsGoUpwards(s, i);
    }
  }

  lemma CallWalksGoUpwards(s: State, i: nat)
    requires i < |s.th| && Enabled(s, i) && Above(i, Todo(s.th[i].pc))
    requires var pc := s.th[i].pc; pc.Parked? || pc.BeforeJoin? || pc.Notify? || pc.Execute?
    ensures Above(i, Todo(Own(s, i).pc))
  {
    hide Up, Down, Above, NumThreadsForTask, WakeCount;
    var n, pc := |s.th|, s.th[i].pc;
    TailIsAbove(i, Todo(pc));
    if pc.Parked? || pc.BeforeJoin? {
      WalksGoUpwards(n, NumThreadsForTask(s), i);
    } else {
      var t := s.calls[s.th[i].task];
      WalksGoUpwards(n, t.concurrency, i);
      WalksGoUpwards(n, WakeCount(n, t), i);
    }
  }

  lemma SyncWalksGoUpwards(s: State, i: nat)
    requires i < |s.th| && Enabled(s, i) && Above(i, Todo(s.th[i].pc))
    requires s.th[i].pc.Collect? || s.th[i].pc.Retract?
    ensures Above(i, Todo(Own(s, i).pc))
  {
    hide Up, Down, Above;
    WalksGoUpwards(|s.th|, s.calls[s.th[i].task].concurrency, i);
  }

  lemma SyncTailsGoUpwards(s: State, i: nat)
    requires i < |s.th| && Enabled(s, i) && Above(i, Todo(s.th[i].pc))
    requires var pc := s.th[i].pc; pc.Take? || pc.Publish? || pc.Raise? || pc.Await? || pc.Give? || pc.Lower?
    ensures Above(i, Todo(Own(s, i).pc))
  {
    hide Above;
    TailIsAbove(i, Todo(s.th[i].pc));
  }

  lemma CallTailsGoUpwards(s: State, i: nat)
    requires i < |s.th| && Enabled(s, i) && Above(i, Todo(s.th[i].pc))
    requires var pc := s.th[i].pc; pc.AwaitKids? || pc.Merge? || pc.Signal? || pc.Join?
    ensures Above(i, Todo(Own(s, i).pc))
  {
    hide Above;
    TailIsAbove(i, Todo(s.th[i].pc));
  }

  lemma UpwardsStep(s: State, e: Event)
    requires Upwards(s) && CanHappen(s, e)
    ensures Upwards(After(s, e)) && |After(s, e).th| == |s.th|
  {
    hide Enabled, MainEnabled, Own, Above, NumThreadsForTask, HaveWork;
    match e
    case OfThread(i) =>
      OwnGoesUpwards(s, i);
      hide Hit;
    case OfMain => MainKeepsTodo(s);
    case OfCaller(t) =>
    case Drop =>
  }

  lemma MainKeepsTodo(s: State)
    requires MainEnabled(s)
    ensures |MainStep(s).th| == |s.th|
    ensures forall i: nat :: i < |s.th| ==> Todo(MainStep(s).th[i].pc) == Todo(s.th[i].pc)
  {
  }

  // ---------- Costs ----------

  ghost function Times(cost: nat, k: nat): nat {
    if k == 0 then 0 else cost + Times(cost, k - 1)
  }

  lemma {:induction false} TimesMonotone(cost: nat, k: nat, m: nat)
    requires k <= m
    ensures Times(cost, k) <= Times(cost, m)
    decreases m
  {
    if k < m {
      TimesMonotone(cost, k, m - 1);
    }
  }

  ghost function MaxRounds(calls: seq<Task>): nat {
    if calls == [] then 0
    else
      var front, last := MaxRounds(calls[..|calls| - 1]), calls[|calls| - 1].rounds;
      if front < last then last else front
  }

  lemma {:induction false} RoundsAreBounded(calls: seq<Task>, g: nat)
    requires g < |calls|
    ensures calls[g].rounds <= MaxRounds(calls)
    decreases |calls|
  {
    if g < |calls| - 1 {
      RoundsAreBounded(calls[..|calls| - 1], g);
    }
  }

  /** From `Execute(r)` to the end of a pass, in a squad of `n` threads and with at most `rounds` synchronizations. */
  ghost function BodyCost(n: nat, rounds: nat, r: nat): nat {
    Times(4 * n + 8, if r < rounds then rounds - r else 0) + 3 * n + 5
  }

  /** A whole pass of thread `v`, with all that the threads it notifies do because of it. */
  ghost function PassCost(n: nat, rounds: nat, v: nat): nat
    decreases if v < n then n - v else 0
  {
    if v >= n then 0
    else Times(PassCost(n, rounds, v + 1) + 1, n) + 2 + BodyCost(n, rounds, 0)
  }

  lemma {:induction false} PassCostShrinks(n: nat, rounds: nat, u: nat, v: nat)
    requires u <= v
    ensures PassCost(n, rounds, v) <= PassCost(n, rounds, u)
    decreases v
  {
    if u < v {
      PassCostShrinks(n, rounds, u, v - 1);
      if v <= n {
        TimesMonotone(PassCost(n, rounds, v) + 1, 1, n);
        assert Times(PassCost(n, rounds, v) + 1, 1) == PassCost(n, rounds, v) + 1 + Times(PassCost(n, rounds, v) + 1, 0);
      }
    }
  }

  /** The rest of the current pass. */
  ghost function PcCost(n: nat, rounds: nat, v: nat, pc: Pc): nat {
    match pc
    case Unborn => 0
    case Parked => 0
    case Notify(todo) => Times(PassCost(n, rounds, v + 1) + 1, |todo|) + 1 + BodyCost(n, rounds, 0)
    case Execute(r) => BodyCost(n, rounds, r)
    case Collect(r, todo) => 2 * |todo| + 2 * n + 7 + BodyCost(n, rounds, r + 1)
    case Take(r, todo) => 2 * |todo| + 2 * n + 6 + BodyCost(n, rounds, r + 1)
    case Publish(r) => 2 * n + 6 + BodyCost(n, rounds, r + 1)
    case Raise(r) => 2 * n + 5 + BodyCost(n, rounds, r + 1)
    case Await(r) => 2 * n + 4 + BodyCost(n, rounds, r + 1)
    case Retract(r) => 2 * n + 3 + BodyCost(n, rounds, r + 1)
    case Give(r, todo) => 2 * |todo| + 2 + BodyCost(n, rounds, r + 1)
    case Lower(r, todo) => 2 * |todo| + 1 + BodyCost(n, rounds, r + 1)
    case AwaitKids(todo) => 2 * |todo| + n + 4
    case Merge(todo) => 2 * |todo| + n + 3
    case Signal => n + 3
    case BeforeJoin => n + 2
    case Join(todo) => |todo| + 1
    case Exited => 0
  }

  /** The flags will let the thread begin another pass. */
  ghost predicate WillWake(x: Thread) {
    match x.pc
    case Unborn => x.incoming != x.outgoing
    case Parked => x.incoming != x.outgoing
    case BeforeJoin => false
    case Join(_) => false
    case Exited => false
    case _ => x.incoming == x.outgoing
  }

  ghost function ThreadCost(n: nat, rounds: nat, v: nat, x: Thread): nat {
    PcCost(n, rounds, v, x.pc) + if WillWake(x) then PassCost(n, rounds, v) else 0
  }

  ghost function CostAt(s: State, v: nat): nat
    requires v < |s.th|
  {
    ThreadCost(|s.th|, MaxRounds(s.calls), v, s.th[v])
  }

  ghost function SquadCost(s: State, m: nat): nat
    requires m <= |s.th|
  {
    if m == 0 then 0 else SquadCost(s, m - 1) + CostAt(s, m - 1)
  }

  ghost function MainCost(n: nat, rounds: nat, main: MainPc): nat {
    match main
    case Ready => 0
    case ForkWake(k) => Times(PassCost(n, rounds, 0) + 1, if k < n then n - k else 0) + 2 * n + 6
    case ForkStart(k) => (if k < n then 2 * (n - k) else 0) + 5
    case ForkRecord(k) => (if k < n then 2 * (n - k) - 1 else 0) + 5
    case NotifyRoot => PassCost(n, rounds, 0) + 4
    case AwaitRoot => 3
    case JoinRoot => 2
    case Release => 1
    case Gone => 0
  }

  /** A bound on the steps until the squad and the main thread stop. */
  ghost function Measure(s: State): nat {
    MainCost(|s.th|, MaxRounds(s.calls), s.main) + SquadCost(s, |s.th|)
  }

  // ---------- A thread's own step ----------

  lemma WakeCosts(n: nat, rounds: nat, v: nat, y: Thread, z: Thread)
    requires v < n && y.pc.Parked? && y.incoming != y.outgoing && z.pc.Notify? && |z.pc.todo| <= n
    requires z.incoming == y.incoming && z.outgoing == y.outgoing
    ensures ThreadCost(n, rounds, v, z) < ThreadCost(n, rounds, v, y)
  {
    TimesMonotone(PassCost(n, rounds, v + 1) + 1, |z.pc.todo|, n);
    hide BodyCost;
  }

  lemma SyncCosts(n: nat, rounds: nat, v: nat, y: Pc, z: Pc)
    requires y.Collect? || y.Take? || y.Publish? || y.Raise? || y.Await? || y.Retract? || y.Give? || y.Lower?
    requires y.Collect? && y.todo != [] ==> z == Take(y.r, y.todo)
    requires y.Collect? && y.todo == [] ==> z == Publish(y.r) || (z.Give? && z.r == y.r && |z.todo| <= n)
    requires y.Take? ==> y.todo != [] && z == Collect(y.r, y.todo[1..])
    requires y.Publish? ==> z == Raise(y.r)
    requires y.Raise? ==> z == Await(y.r)
    requires y.Await? ==> z == Retract(y.r)
    requires y.Retract? ==> z.Give? && z.r == y.r && |z.todo| <= n
    requires y.Give? ==> z == if y.todo == [] then Execute(y.r + 1) else Lower(y.r, y.todo)
    requires y.Lower? ==> y.todo != [] && z == Give(y.r, y.todo[1..])
    ensures PcCost(n, rounds, v, z) < PcCost(n, rounds, v, y)
  {
    hide BodyCost, PassCost, Times;
  }

  lemma OwnNotifyCosts(s: State, i: nat)
    requires i < |s.th| && Enabled(s, i) && s.th[i].pc.Notify?
    ensures ThreadCost(|s.th|, MaxRounds(s.calls), i, Own(s, i)) +
            (if s.th[i].pc.todo != [] then PassCost(|s.th|, MaxRounds(s.calls), i + 1) + 1 else 1) <=
            ThreadCost(|s.th|, MaxRounds(s.calls), i, s.th[i])
  {
    var n, rounds, y, z := |s.th|, MaxRounds(s.calls), s.th[i], Own(s, i);
    hide PcCost, PassCost, MaxRounds, Up, Down, WakeCount, NumThreadsForTask;
    WalksAreShort(n, WakeCount(n, s.calls[y.task]), i);
  }

  lemma ExecuteShape(s: State, i: nat)
    requires i < |s.th| && Enabled(s, i) && s.th[i].pc.Execute?
    ensures var n, y, z := |s.th|, s.th[i], Own(s, i);
            z.incoming == y.incoming && z.outgoing == y.outgoing &&
            ((z.pc.Collect? && z.pc.r == y.pc.r < MaxRounds(s.calls) && |z.pc.todo| <= n) || (z.pc.AwaitKids? && |z.pc.todo| <= n))
  {
    var n, t := |s.th|, s.calls[s.th[i].task];
    hide MaxRounds, Up, Down, WakeCount;
    if s.th[i].pc.r < t.rounds {
      RoundsAreBounded(s.calls, s.th[i].task);
      WalksAreShort(n, t.concurrency, i);
    } else {
      WalksAreShort(n, WakeCount(n, t), i);
    }
  }

  lemma OwnExecuteCosts(s: State, i: nat)
    requires i < |s.th| && Enabled(s, i) && s.th[i].pc.Execute?
    ensures ThreadCost(|s.th|, MaxRounds(s.calls), i, Own(s, i)) < ThreadCost(|s.th|, MaxRounds(s.calls), i, s.th[i])
  {
    ExecuteShape(s, i);
    hide PcCost, PassCost, MaxRounds, Own, Enabled;
  }

  lemma OwnCollectCosts(s: State, i: nat)
    requires i < |s.th| && Enabled(s, i)
    requires var pc := s.th[i].pc; pc.Collect? || pc.Take? || pc.Publish?
    ensures ThreadCost(|s.th|, MaxRounds(s.calls), i, Own(s, i)) < ThreadCost(|s.th|, MaxRounds(s.calls), i, s.th[i])
  {
    var n, rounds, y, z := |s.th|, MaxRounds(s.calls), s.th[i], Own(s, i);
    hide PcCost, PassCost, MaxRounds, Up, Down, WakeCount, NumThreadsForTask;
    if y.pc.Collect? {
      WalksAreShort(n, s.calls[y.task].concurrency, i);
    }
    SyncCosts(n, rounds, i, y.pc, z.pc);
  }

  lemma OwnReportCosts(s: State, i: nat)
    requires i < |s.th| && Enabled(s, i)
    requires var pc := s.th[i].pc; pc.Raise? || pc.Await? || pc.Retract?
    ensures ThreadCost(|s.th|, MaxRounds(s.calls), i, Own(s, i)) < ThreadCost(|s.th|, MaxRounds(s.calls), i, s.th[i])
  {
    var n, rounds, y, z := |s.th|, MaxRounds(s.calls), s.th[i], Own(s, i);
    hide PcCost, PassCost, MaxRounds, Up, Down, WakeCount, NumThreadsForTask;
    if y.pc.Retract? {
      WalksAreShort(n, s.calls[y.task].concurrency, i);
    }
    SyncCosts(n, rounds, i, y.pc, z.pc);
  }

  lemma OwnGiveCosts(s: State, i: nat)
    requires i < |s.th| && Enabled(s, i)
    requires var pc := s.th[i].pc; pc.Give? || pc.Lower?
    ensures ThreadCost(|s.th|, MaxRounds(s.calls), i, Own(s, i)) < ThreadCost(|s.th|, MaxRounds(s.calls), i, s.th[i])
  {
    var n, rounds, y, z := |s.th|, MaxRounds(s.calls), s.th[i], Own(s, i);
    hide PcCost, PassCost, MaxRounds, Up, Down, WakeCount, NumThreadsForTask;
    SyncCosts(n, rounds, i, y.pc, z.pc);
  }

  lemma OwnAwaitCosts(s: State, i: nat)
    requires i < |s.th| && Enabled(s, i)
    requires var pc := s.th[i].pc; pc.AwaitKids? || pc.Merge? || pc.Signal?
    ensures ThreadCost(|s.th|, MaxRounds(s.calls), i, Own(s, i)) < ThreadCost(|s.th|, MaxRounds(s.calls), i, s.th[i])
  {
    var n, rounds, y, z := |s.th|, MaxRounds(s.calls), s.th[i], Own(s, i);
    hide PcCost, PassCost, MaxRounds, Up, Down, WakeCount, NumThreadsForTask;
  }

  lemma OwnJoinCosts(s: State, i: nat)
    requires i < |s.th| && Enabled(s, i)
    requires var pc := s.th[i].pc; pc.BeforeJoin? || pc.Join?
    ensures ThreadCost(|s.th|, MaxRounds(s.calls), i, Own(s, i)) < ThreadCost(|s.th|, MaxRounds(s.calls), i, s.th[i])
  {
    var n, rounds, y, z := |s.th|, MaxRounds(s.calls), s.th[i], Own(s, i);
    hide PcCost, PassCost, MaxRounds, Up, Down, WakeCount, NumThreadsForTask;
    if y.pc.BeforeJoin? {
      WalksAreShort(n, NumThreadsForTask(s), i);
    }
  }

  lemma OwnCosts(s: State, i: nat)
    requires i < |s.th| && Enabled(s, i)
    ensures var n, rounds, pc := |s.th|, MaxRounds(s.calls), s.th[i].pc;
            ThreadCost(n, rounds, i, Own(s, i)) +
            (if pc.Notify? && pc.todo != [] then PassCost(n, rounds, i + 1) + 1 else 1) <= ThreadCost(n, rounds, i, s.th[i])
  {
    hide ThreadCost, PassCost, MaxRounds, Own;
    var pc := s.th[i].pc;
    if pc.Parked? {
      OwnWakeCosts(s, i);
    } else if pc.Notify? {
      OwnNotifyCosts(s, i);
    } else if pc.Execute? {
      OwnExecuteCosts(s, i);
    } else if pc.Collect? || pc.Take? || pc.Publish? {
      OwnCollectCosts(s, i);
    } else if pc.Raise? || pc.Await? || pc.Retract? {
      OwnReportCosts(s, i);
    } else if pc.Give? || pc.Lower? {
      OwnGiveCosts(s, i);
    } else if pc.AwaitKids? || pc.Merge? || pc.Signal? {
      OwnAwaitCosts(s, i);
    } else {
      OwnJoinCosts(s, i);
    }
  }

  lemma OwnWakeCosts(s: State, i: nat)
    requires i < |s.th| && Enabled(s, i) && s.th[i].pc.Parked?
    ensures ThreadCost(|s.th|, MaxRounds(s.calls), i, Own(s, i)) < ThreadCost(|s.th|, MaxRounds(s.calls), i, s.th[i])
  {
    hide ThreadCost, PassCost, MaxRounds, Up, Down, NumThreadsForTask;
    WalksAreShort(|s.th|, NumThreadsForTask(s), i);
    WakeCosts(|s.th|, MaxRounds(s.calls), i, s.th[i], Own(s, i));
  }

  // ---------- A step of the squad ----------

  /** A cost that moves from thread `i` to thread `k` and shrinks on the way. */
  lemma {:induction false} CostMoves(s: State, s': State, m: nat, i: nat, k: nat, moved: nat)
    requires |s'.th| == |s.th| && m <= |s.th| && i < |s.th| && k < |s.th| && i != k
    requires CostAt(s', i) + moved + 1 <= CostAt(s, i) && CostAt(s', k) <= CostAt(s, k) + moved
    requires forall v: nat :: v < |s.th| && v != i && v != k ==> CostAt(s', v) == CostAt(s, v)
    ensures SquadCost(s', m) + (if i < m then moved + 1 else 0) <= SquadCost(s, m) + (if k < m then moved else 0)
    decreases m
  {
    hide CostAt;
    if m > 0 {
      CostMoves(s, s', m - 1, i, k, moved);
      var v := m - 1;
      assert v != i && v != k ==> CostAt(s', v) == CostAt(s, v);
    }
  }

  lemma {:induction false} CostShrinks(s: State, s': State, m: nat, i: nat)
    requires |s'.th| == |s.th| && m <= |s.th| && i < |s.th|
    requires CostAt(s', i) < CostAt(s, i)
    requires forall v: nat :: v < |s.th| && v != i ==> CostAt(s', v) == CostAt(s, v)
    ensures SquadCost(s', m) + (if i < m then 1 else 0) <= SquadCost(s, m)
    decreases m
  {
    hide CostAt;
    if m > 0 {
      CostShrinks(s, s', m - 1, i);
      var v := m - 1;
      assert v != i ==> CostAt(s', v) == CostAt(s, v);
    }
  }

  /** Main-thread steps may add at most `added` to one thread. */
  lemma {:induction false} CostGrows(s: State, s': State, m: nat, k: nat, added: nat)
    requires |s'.th| == |s.th| && m <= |s.th| && k < |s.th|
    requires CostAt(s', k) <= CostAt(s, k) + added
    requires forall v: nat :: v < |s.th| && v != k ==> CostAt(s', v) == CostAt(s, v)
    ensures SquadCost(s', m) <= SquadCost(s, m) + (if k < m then added else 0)
    decreases m
  {
    hide CostAt;
    if m > 0 {
      CostGrows(s, s', m - 1, k, added);
      var v := m - 1;
      assert v != k ==> CostAt(s', v) == CostAt(s, v);
    }
  }

  lemma ToggleCosts(n: nat, rounds: nat, v: nat, x: Thread)
    ensures ThreadCost(n, rounds, v, Wake(x)) <= ThreadCost(n, rounds, v, x) + PassCost(n, rounds, v)
  {
    hide PcCost, PassCost;
  }

  lemma CostsDepend(n: nat, rounds: nat, v: nat, y: Thread, z: Thread)
    requires z.pc == y.pc && z.incoming == y.incoming && z.outgoing == y.outgoing
    ensures ThreadCost(n, rounds, v, z) == ThreadCost(n, rounds, v, y)
  {
    hide PcCost, PassCost;
  }

  /** Of what a thread does to its target, only the notification costs anything. */
  lemma HitCosts(n: nat, rounds: nat, v: nat, x: Thread, reduces: bool, y: Thread)
    requires Target(x.pc).Some?
    ensures ThreadCost(n, rounds, v, Hit(x, reduces, y)) <=
            ThreadCost(n, rounds, v, y) + if x.pc.Notify? then PassCost(n, rounds, v) else 0
  {
    hide ThreadCost, PassCost;
    if x.pc.Notify? {
      ToggleCosts(n, rounds, v, y);
    } else {
      CostsDepend(n, rounds, v, y, Hit(x, reduces, y));
    }
  }

  /** The step of thread `i` as an update of `i` and of its target. */
  ghost predicate Moves(s: State, s': State, i: nat)
    requires i < |s.th| && Enabled(s, i)
  {
    |s'.th| == |s.th| && s'.calls == s.calls && s'.main == s.main && s'.task == s.task && s'.th[i] == Own(s, i) &&
    match Target(s.th[i].pc)
    case None => forall v: nat :: v < |s.th| && v != i ==> s'.th[v] == s.th[v]
    case Some(k) =>
      i < k < |s.th| && (forall v: nat :: v < |s.th| && v != i && v != k ==> s'.th[v] == s.th[v]) &&
      exists reduces :: s'.th[k] == Hit(s.th[i], reduces, s.th[k])
  }

  lemma StepMoves(s: State, i: nat)
    requires Upwards(s) && i < |s.th| && Enabled(s, i)
    ensures Moves(s, ThreadStep(s, i), i)
  {
    var pc := s.th[i].pc;
    if Target(pc).Some? {
      assert Todo(pc)[0] in Todo(pc) && Above(i, Todo(pc));
    }
    hide Own, Hit;
  }

  lemma ThreadStepCounts(s: State, i: nat)
    requires Upwards(s) && i < |s.th| && Enabled(s, i)
    ensures Measure(ThreadStep(s, i)) < Measure(s)
    ensures Moves(s, ThreadStep(s, i), i)
  {
    var s', n, rounds := ThreadStep(s, i), |s.th|, MaxRounds(s.calls);
    StepMoves(s, i);
    OwnCosts(s, i);
    hide ThreadStep, Own, Hit, ThreadCost, PassCost, MaxRounds, MainCost, Enabled, Upwards;
    if Target(s.th[i].pc).None? {
      CostShrinks(s, s', n, i);
    } else {
      var k := Target(s.th[i].pc).value;
      var reduces :| s'.th[k] == Hit(s.th[i], reduces, s.th[k]);
      HitCosts(n, rounds, k, s.th[i], reduces, s.th[k]);
      PassCostShrinks(n, rounds, i + 1, k);
      CostMoves(s, s', n, i, k, if s.th[i].pc.Notify? then PassCost(n, rounds, i + 1) else 0);
    }
  }

  // ---------- A step of the main thread ----------

  lemma OtherMainSteps(s: State)
    requires MainEnabled(s) && s.main != NotifyRoot && !(s.main.ForkWake? && s.main.k < NumThreadsForTask(s))
    ensures var s' := MainStep(s); |s'.th| == |s.th| && s'.calls == s.calls && forall v: nat :: v < |s.th| ==> CostAt(s', v) == CostAt(s, v)
    ensures MainCost(|s.th|, MaxRounds(s.calls), MainStep(s).main) < MainCost(|s.th|, MaxRounds(s.calls), s.main)
  {
    hide MaxRounds, PassCost, Times, BodyCost;
  }

  lemma MainStepCounts(s: State)
    requires MainEnabled(s)
    ensures |MainStep(s).th| == |s.th| && MainStep(s).calls == s.calls && Measure(MainStep(s)) < Measure(s)
  {
    var s', n, rounds := MainStep(s), |s.th|, MaxRounds(s.calls);
    hide MainCost, PassCost, MaxRounds;
    if s.main == NotifyRoot || (s.main.ForkWake? && s.main.k < NumThreadsForTask(s)) {
      var k := if s.main == NotifyRoot then 0 else s.main.k;
      hide MainStep, ThreadCost;
      ToggleCosts(n, rounds, k, s.th[k]);
      PassCostShrinks(n, rounds, 0, k);
      CostGrows(s, s', n, k, PassCost(n, rounds, 0));
    } else {
      OtherMainSteps(s);
      hide MainStep, CostAt;
      CostGrows(s, s', n, 0, 0);
    }
  }

  // ---------- Executions of one call ----------

  lemma SquadStepCounts(s: State, e: Event)
    requires Upwards(s) && OfSquad(e) && CanHappen(s, e)
    ensures var s' := After(s, e);
            Upwards(s') && |s'.th| == |s.th| && s'.calls == s.calls && Measure(s') < Measure(s)
  {
    UpwardsStep(s, e);
    hide Upwards, Measure, Enabled, MainEnabled, ThreadStep, MainStep;
    match e
    case OfThread(i) => ThreadStepCounts(s, i);
    case OfMain => MainStepCounts(s);
  }

  lemma {:induction false} StepsAreBounded(s: State, es: seq<Event>)
    requires Upwards(s) && IsExecution(s, es)
    ensures |es| <= Measure(s) && Final(s, es).calls == s.calls && |Final(s, es).th| == |s.th| && Upwards(Final(s, es))
    decreases |es|
  {
    hide Upwards, Measure, CanHappen, After;
    if es != [] {
      SquadStepCounts(s, es[0]);
      assert IsExecution(After(s, es[0]), es[1..]);
      StepsAreBounded(After(s, es[0]), es[1..]);
    }
  }

  /** Every execution can be continued until it is stuck. */
  lemma {:induction false} MaximalExecution(s: State) returns (es: seq<Event>)
    requires Upwards(s)
    ensures IsExecution(s, es) && Stuck(Final(s, es))
    decreases Measure(s)
  {
    hide Upwards, Measure, CanHappen, After;
    es := [];
    if !Stuck(s) {
      var e :| OfSquad(e) && CanHappen(s, e);
      SquadStepCounts(s, e);
      var fs := MaximalExecution(After(s, e));
      es := [e] + fs;
      assert es[1..] == fs;
    }
  }
}
